/**
 * The `maintenance` slice of the web client's store: the maintenance tasks
 * with four denormalised counters (all, in progress, completed, high
 * priority) that the reducers keep in step with the list.
 */
module MaintenanceSlice {
  import Js
  import opened Outcome
  import opened Lists
  import opened ListCache

  predicate InProgress(t: Entry) { Js.Get(t.fields, "status") == Js.Str("In Progress") }
  predicate Completed(t: Entry) { Js.Get(t.fields, "status") == Js.Str("Completed") }
  predicate HighPriority(t: Entry) { Js.Get(t.fields, "priority") == Js.Str("High") }

  /** Maintenance task ids are distinct and each counter is its filter-count of the list. */
  predicate Consistent(tasks: seq<Entry>, totalTasks: int, inProgress: int, completed: int, highPriority: int) {
    IdsUnique(tasks) && totalTasks == |tasks| && inProgress == Count(tasks, InProgress) &&
    completed == Count(tasks, Completed) && highPriority == Count(tasks, HighPriority)
  }

  datatype MaintenanceState = MaintenanceState(
    maintenanceRecords: seq<Entry>,
    totalTasks: int,
    inProgress: int,
    completed: int,
    highPriority: int,
    selectedTask: Js.Value,
    status: Js.Value,
    error: Js.Value)

  const InitialState := MaintenanceState([], 0, 0, 0, 0, Js.Null, Js.Str("idle"), Js.Null)

  /** A task is never both in progress and completed, so the two status counters together stay within the total. */
  lemma StatusCountsWithinTotal(tasks: seq<Entry>, totalTasks: int, inProgress: int, completed: int, highPriority: int)
    requires Consistent(tasks, totalTasks, inProgress, completed, highPriority)
    ensures 0 <= inProgress + completed <= totalTasks
    ensures 0 <= highPriority <= totalTasks
  {
    DisjointCountsBounded(tasks, InProgress, Completed);
  }

  /** Appending a task with a new id raises the counters it falls under by one. */
  lemma AddKeepsConsistent(tasks: seq<Entry>, task: Entry, total: int, inProgress: int, completed: int, highPriority: int)
    requires Consistent(tasks, total, inProgress, completed, highPriority)
    requires FindIndex(tasks, EntryKey, task.id).None?
    ensures Consistent(tasks + [task], total + 1,
                       Shift(inProgress, false, InProgress(task)),
                       Shift(completed, false, Completed(task)),
                       Shift(highPriority, false, HighPriority(task)))
  {
    CountAppend(tasks, [task], InProgress);
    CountAppend(tasks, [task], Completed);
    CountAppend(tasks, [task], HighPriority);
    CacheWritesKeepIdsUnique(tasks, task);
  }

  /** Replacing the maintenance record at an index with one of the same id moves each counter by what left and what arrived. */
  lemma UpdateKeepsConsistent(tasks: seq<Entry>, i: nat, updated: Entry,
                              total: int, inProgress: int, completed: int, highPriority: int)
    requires i < |tasks| && tasks[i].id == updated.id
    requires Consistent(tasks, total, inProgress, completed, highPriority)
    ensures Consistent(tasks[i := updated], total,
                       Shift(inProgress, InProgress(tasks[i]), InProgress(updated)),
                       Shift(completed, Completed(tasks[i]), Completed(updated)),
                       Shift(highPriority, HighPriority(tasks[i]), HighPriority(updated)))
  {
    CountUpdate(tasks, i, updated, InProgress);
    CountUpdate(tasks, i, updated, Completed);
    CountUpdate(tasks, i, updated, HighPriority);
    assert FindIndex(tasks, EntryKey, updated.id) == Some(i);
    ReplaceSameKeyKeepsUnique(tasks, EntryKey, updated.id, updated);
  }

  /** Deleting a present id among unique ids takes one task and its counts away. */
  lemma DeleteKeepsConsistent(tasks: seq<Entry>, id: Js.Value, gone: Entry,
                              total: int, inProgress: int, completed: int, highPriority: int)
    requires Consistent(tasks, total, inProgress, completed, highPriority)
    requires FindFirst(tasks, EntryKey, id) == Some(gone)
    ensures Consistent(RemoveAll(tasks, EntryKey, id), total - 1,
                       Shift(inProgress, InProgress(gone), false),
                       Shift(completed, Completed(gone), false),
                       Shift(highPriority, HighPriority(gone), false))
  {
    FindFirstAtIndex(tasks, EntryKey, id);
    DeleteCachedOnce(tasks, id);
    CountRemoveUnique(tasks, EntryKey, id, InProgress);
    CountRemoveUnique(tasks, EntryKey, id, Completed);
    CountRemoveUnique(tasks, EntryKey, id, HighPriority);
  }

  /** UpdateKeepsConsistent for a list that may not be consistent: consistency before gives consistency after. */
  lemma UpdateStep(tasks: seq<Entry>, i: nat, updated: Entry, total: int, inProgress: int, completed: int, highPriority: int)
    requires i < |tasks| && tasks[i].id == updated.id
    ensures Consistent(tasks, total, inProgress, completed, highPriority) ==>
      Consistent(tasks[i := updated], total,
                 Shift(inProgress, InProgress(tasks[i]), InProgress(updated)),
                 Shift(completed, Completed(tasks[i]), Completed(updated)),
                 Shift(highPriority, HighPriority(tasks[i]), HighPriority(updated)))
  {
    if Consistent(tasks, total, inProgress, completed, highPriority) {
      UpdateKeepsConsistent(tasks, i, updated, total, inProgress, completed, highPriority);
    }
  }

  /** DeleteKeepsConsistent for a list that may not be consistent. */
  lemma DeleteStep(tasks: seq<Entry>, id: Js.Value, gone: Entry, total: int, inProgress: int, completed: int, highPriority: int)
    requires FindFirst(tasks, EntryKey, id) == Some(gone)
    ensures Consistent(tasks, total, inProgress, completed, highPriority) ==>
      Consistent(RemoveAll(tasks, EntryKey, id), total - 1,
                 Shift(inProgress, InProgress(gone), false),
                 Shift(completed, Completed(gone), false),
                 Shift(highPriority, HighPriority(gone), false))
  {
    if Consistent(tasks, total, inProgress, completed, highPriority) {
      DeleteKeepsConsistent(tasks, id, gone, total, inProgress, completed, highPriority);
    }
  }

  class Slice {
    var maintenanceRecords: seq<Entry>
    var totalTasks: int
    var inProgress: int
    var completed: int
    var highPriority: int
    var selectedTask: Js.Value
    var status: Js.Value
    var error: Js.Value

    function State(): MaintenanceState
      reads this
    {
      MaintenanceState(maintenanceRecords, totalTasks, inProgress, completed, highPriority, selectedTask, status, error)
    }

    ghost predicate Valid()
      reads this
    {
      Consistent(maintenanceRecords, totalTasks, inProgress, completed, highPriority)
    }

    constructor ()
      ensures State() == InitialState && Valid()
    {
      maintenanceRecords := [];
      totalTasks := 0;
      inProgress := 0;
      completed := 0;
      highPriority := 0;
      selectedTask := Js.Null;
      status := Js.Str("idle");
      error := Js.Null;
    }

    /** setMaintenanceRecords: the list and its four counts. */
    method SetMaintenanceRecords(list: seq<Entry>)
      modifies this
      ensures State() == old(State()).(maintenanceRecords := list, totalTasks := |list|,
                                       inProgress := Count(list, InProgress), completed := Count(list, Completed),
                                       highPriority := Count(list, HighPriority))
      ensures IdsUnique(list) ==> Valid()
    {
      maintenanceRecords := list;
      totalTasks := |list|;
      inProgress := Count(list, InProgress);
      completed := Count(list, Completed);
      highPriority := Count(list, HighPriority);
    }

    /** addMaintenanceTask: the new record goes last and the counters it falls under go up by one. */
    method AddMaintenanceTask(task: Entry)
      modifies this
      ensures State() == old(State()).(maintenanceRecords := old(maintenanceRecords) + [task],
                                       totalTasks := old(totalTasks) + 1,
                                       inProgress := Shift(old(inProgress), false, InProgress(task)),
                                       completed := Shift(old(completed), false, Completed(task)),
                                       highPriority := Shift(old(highPriority), false, HighPriority(task)))
      ensures old(Valid()) && FindIndex(old(maintenanceRecords), EntryKey, task.id).None? ==> Valid()
    {
      if Valid() && FindIndex(maintenanceRecords, EntryKey, task.id).None? {
        AddKeepsConsistent(maintenanceRecords, task, totalTasks, inProgress, completed, highPriority);
      }
      maintenanceRecords := maintenanceRecords + [task];
      totalTasks := totalTasks + 1;
      if InProgress(task) {
        inProgress := inProgress + 1;
      }
      if Completed(task) {
        completed := completed + 1;
      }
      if HighPriority(task) {
        highPriority := highPriority + 1;
      }
    }

    /**
     * updateMaintenanceTask: the first task with the payload's id is
     * replaced and each counter moves by what leaves and what arrives; an
     * unknown id changes nothing.
     */
    method UpdateMaintenanceTask(updated: Entry)
      modifies this
      ensures selectedTask == old(selectedTask) && status == old(status) && error == old(error)
      ensures var i := FindIndex(old(maintenanceRecords), EntryKey, updated.id);
        (i.None? ==> maintenanceRecords == old(maintenanceRecords) && totalTasks == old(totalTasks) &&
                     inProgress == old(inProgress) && completed == old(completed) && highPriority == old(highPriority)) &&
        (i.Some? ==> (var before := old(maintenanceRecords)[i.value];
                      maintenanceRecords == old(maintenanceRecords)[i.value := updated] && totalTasks == old(totalTasks) &&
                      inProgress == Shift(old(inProgress), InProgress(before), InProgress(updated)) &&
                      completed == Shift(old(completed), Completed(before), Completed(updated)) &&
                      highPriority == Shift(old(highPriority), HighPriority(before), HighPriority(updated))))
      ensures old(Valid()) ==> Valid()
    {
      var index := FindIndex(maintenanceRecords, EntryKey, updated.id);
      if index.Some? {
        var i := index.value;
        var before := maintenanceRecords[i];
        // a counter drops when the old task leaves it and rises when the new one joins it
        var statusChanged := Js.Get(before.fields, "status") != Js.Get(updated.fields, "status");
        var running := AdjustCount(inProgress, statusChanged, InProgress(before), InProgress(updated));
        var done := AdjustCount(completed, statusChanged, Completed(before), Completed(updated));
        var urgent := AdjustCount(highPriority, Js.Get(before.fields, "priority") != Js.Get(updated.fields, "priority"),
                                  HighPriority(before), HighPriority(updated));
        UpdateStep(maintenanceRecords, i, updated, totalTasks, inProgress, completed, highPriority);
        inProgress, completed, highPriority := running, done, urgent;
        maintenanceRecords := maintenanceRecords[i := updated];
      }
    }

    /**
     * deleteMaintenanceTask: the counters drop once for the first task with
     * the id, while every task with the id leaves the list.
     */
    method DeleteMaintenanceTask(id: Js.Value)
      modifies this
      ensures selectedTask == old(selectedTask) && status == old(status) && error == old(error)
      ensures var found := FindFirst(old(maintenanceRecords), EntryKey, id);
        (found.None? ==> maintenanceRecords == old(maintenanceRecords) && totalTasks == old(totalTasks) &&
                         inProgress == old(inProgress) && completed == old(completed) && highPriority == old(highPriority)) &&
        (found.Some? ==> maintenanceRecords == RemoveAll(old(maintenanceRecords), EntryKey, id) &&
                         totalTasks == old(totalTasks) - 1 &&
                         inProgress == Shift(old(inProgress), InProgress(found.value), false) &&
                         completed == Shift(old(completed), Completed(found.value), false) &&
                         highPriority == Shift(old(highPriority), HighPriority(found.value), false))
      ensures old(Valid()) ==> Valid()
    {
      var found := FindFirst(maintenanceRecords, EntryKey, id);
      if found.Some? {
        var task := found.value;
        // each counter the removed record falls under drops by one
        DeleteStep(maintenanceRecords, id, task, totalTasks, inProgress, completed, highPriority);
        inProgress := Shift(inProgress, InProgress(task), false);
        completed := Shift(completed, Completed(task), false);
        highPriority := Shift(highPriority, HighPriority(task), false);
        maintenanceRecords := RemoveAll(maintenanceRecords, EntryKey, id);
        totalTasks := totalTasks - 1;
      }
    }

    method SetSelectedTask(task: Js.Value)
      modifies this
      ensures State() == old(State()).(selectedTask := task)
    {
      selectedTask := task;
    }

    method SetStatus(newStatus: Js.Value)
      modifies this
      ensures State() == old(State()).(status := newStatus)
    {
      status := newStatus;
    }

    /** setError: the error, and the status forced to 'failed'. */
    method SetError(e: Js.Value)
      modifies this
      ensures State() == old(State()).(error := e, status := Js.Str("failed"))
    {
      error := e;
      status := Js.Str("failed");
    }
  }
}
