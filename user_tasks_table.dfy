/**
 * `UserTaskController`, the controller of the "User Tasks" tab of a process
 * instance: its pagination state, its refresh of the task list, and the inline
 * edit of a task's assignee and owner. The state it keeps on its scope and in
 * its closure is held in fields; requests are returned to the caller and their
 * responses come back as method arguments.
 */
module UserTasksTable {
  import opened Wrappers
  import opened TaskView

  class UserTaskController {
    /** The process instance the view shows. */
    const processInstance: ProcessInstance
    /** The fields the task resource has a set action for. */
    const settable: set<Field>
    /** `pages.size`. */
    const size: int
    /** `pages.current`; 0 stands for an empty page. */
    var current: int
    /** `pages.total`. */
    var total: nat
    /** The value of `pages.current` that the watch saw at its last run; `None` before its first run. */
    var watched: Option<int>
    /**
     * The controller's copy of the last filter, without the view-only keys;
     * `None` (null) until the first `updateView`, which is also when
     * `taskCopies` and `taskIdIdToExceptionMessageMap` stop being undefined.
     */
    var filter: Option<Params>
    /** The `executionIdToInstanceMap` the last refresh was started with; empty before the first. */
    var instances: map<string, Instance>
    /** `$scope.userTasks`: `None` until the list response of the last refresh arrives. */
    var userTasks: Option<seq<Task>>
    /** `taskCopies`: the editable snapshot of each listed task, by task id. */
    var copies: map<string, Task>
    /** `taskIdIdToExceptionMessageMap`: the error of each task's last failed update, by task id. */
    var exceptions: map<string, Exception>

    /** Tasks are only listed after a refresh, and every listed task has a snapshot under its id. */
    ghost predicate Valid()
      reads this
    {
      && size == DefaultPageSize
      && (userTasks.Some? ==> filter.Some?)
      && (userTasks.Some? ==> forall t | t in userTasks.value :: t.id in copies && copies[t.id].id == t.id)
    }

    /** The row of the `i`-th listed task: the task, its snapshot and its error entry. */
    ghost function RowAt(i: nat): Row
      reads this
      requires Valid() && userTasks.Some? && i < |userTasks.value|
    {
      var t := userTasks.value[i];
      assert t in userTasks.value;
      Row(t, copies[t.id], if t.id in exceptions then Some(exceptions[t.id]) else None)
    }

    constructor (processInstance: ProcessInstance, settable: set<Field>)
      ensures Valid()
      ensures this.processInstance == processInstance && this.settable == settable
      ensures current == 1 && total == 0 && watched == None
      ensures filter == None && instances == map[] && userTasks == None && copies == map[] && exceptions == map[]
    {
      this.processInstance := processInstance;
      this.settable := settable;
      size := DefaultPageSize;
      current, total := 1, 0;
      watched := None;
      filter := None;
      instances := map[];
      userTasks := None;
      copies, exceptions := map[], map[];
    }

    /** The pagination control writing `pages.current`. */
    method SetPage(page: int)
      modifies this`current
      ensures current == page
    {
      current := page;
    }

    /**
     * A digest running the watch on `pages.current`: what it pushes to the
     * search service. The first run only records the page, since the listener
     * is then called with equal new and old values.
     */
    method WatchPage() returns (push: PageSearch)
      modifies this`watched
      ensures old(watched).None? ==> push == NoPush
      ensures old(watched).Some? ==> push == PageWatch(current, old(watched).value)
      ensures watched == Some(current)
    {
      if watched.None? || current == watched.value {
        push := NoPush;
      } else if current == 0 || current == 1 {
        push := PushNull;
      } else {
        push := PushPage(current);
      }
      watched := Some(current);
    }

    /** The observer of the shared filter: the page is taken from the filter, then the view refreshed. */
    method ObserveFilter(newFilter: Params, executionIdToInstanceMap: map<string, Instance>) returns (request: Request)
      requires Valid()
      modifies this`current, this`filter, this`instances, this`userTasks, this`copies, this`exceptions
      ensures Valid()
      ensures current == PageOfFilter(newFilter)
      ensures request == Request(PagingFor(current, size), QueryParams(newFilter, processInstance))
      ensures filter == Some(StoredFilter(newFilter)) && instances == executionIdToInstanceMap
      ensures userTasks == None && copies == map[] && exceptions == map[]
    {
      if PAGE in newFilter && Truthy(newFilter[PAGE]) && newFilter[PAGE].Num? {
        current := newFilter[PAGE].n;
      } else {
        current := 1;
      }
      request := UpdateView(newFilter, executionIdToInstanceMap);
    }

    /**
     * `updateView`: stores the filter, builds the count and list requests for the
     * current page, and empties the list, the snapshots and the errors. The
     * instance map is kept for the list response's callback.
     */
    method UpdateView(newFilter: Params, executionIdToInstanceMap: map<string, Instance>) returns (request: Request)
      requires Valid()
      modifies this`filter, this`instances, this`userTasks, this`copies, this`exceptions
      ensures Valid()
      ensures request == Request(PagingFor(current, size), QueryParams(newFilter, processInstance))
      ensures filter == Some(StoredFilter(newFilter)) && instances == executionIdToInstanceMap
      ensures userTasks == None && copies == map[] && exceptions == map[]
    {
      var stored := newFilter - {PAGE};
      stored := stored - {ACTIVITY_IDS};
      stored := stored - {SCROLL_TO_BPMN_ELEMENT};
      var paging := Paging((current - 1) * size, size);
      var params := stored + map[PROCESS_INSTANCE_ID := Text(processInstance.id),
                                 PROCESS_DEFINITION_ID := Text(processInstance.definitionId)];
      assert stored == StoredFilter(newFilter);
      if ACTIVITY_INSTANCE_IDS in params {
        params := params[ACTIVITY_INSTANCE_ID_IN := params[ACTIVITY_INSTANCE_IDS]];
      } else {
        params := params - {ACTIVITY_INSTANCE_ID_IN};
      }
      params := params - {ACTIVITY_INSTANCE_IDS};
      assert params == QueryParams(newFilter, processInstance);
      filter := Some(stored);
      instances := executionIdToInstanceMap;
      userTasks := None;
      exceptions := map[];
      copies := map[];
      request := Request(paging, params);
    }

    /** The count response: `pages.total` becomes the number of pages that hold `count` tasks. */
    method ReceiveCount(count: nat)
      requires Valid()
      modifies this`total
      ensures Valid()
      ensures total == TotalPages(count, size)
    {
      total := (count + size - 1) / size;
    }

    /**
     * The list response: each task gets its activity instance from the map
     * the refresh was started with and a snapshot under its id, then the list
     * is shown. The callback exists only once a refresh has issued the request.
     */
    method ReceiveTasks(resource: seq<TaskData>)
      requires Valid() && filter.Some?
      modifies this`userTasks, this`copies
      ensures Valid()
      ensures userTasks == Some(Arrivals(resource, instances))
      ensures copies == Snapshots(old(copies), Arrivals(resource, instances))
    {
      var tasks: seq<Task> := [];
      var i := 0;
      while i < |resource|
        invariant 0 <= i <= |resource|
        invariant tasks == Arrivals(resource[..i], instances)
        invariant copies == Snapshots(old(copies), tasks)
      {
        var task := Arrived(resource[i], instances);
        copies := copies[task.id := task];
        assert tasks + [task] == Arrivals(resource[..i + 1], instances);
        tasks := tasks + [task];
        i := i + 1;
      }
      assert resource[..i] == resource;
      userTasks := Some(tasks);
    }

    /**
     * `getCopy`: the snapshot stored under a task id, if any; before the first
     * refresh the snapshot map is undefined and the lookup throws.
     */
    function GetCopy(taskId: string): (copy: Result<Option<Task>, ScriptError>)
      reads this
      ensures copy.Err? <==> filter.None?
      ensures copy.Ok? ==> (copy.value.Some? <==> taskId in copies)
      ensures copy.Ok? && copy.value.Some? ==> copy.value.value == copies[taskId]
    {
      if filter.None? then Err(TypeError)
      else if taskId in copies then Ok(Some(copies[taskId]))
      else Ok(None)
    }

    /**
     * `getExceptionForUserTask`: the error entry of a task, `None` while it has
     * none; before the first refresh the error map is undefined and the lookup throws.
     */
    function GetException(task: Task): (exception: Result<Option<Exception>, ScriptError>)
      reads this
      ensures exception.Err? <==> filter.None?
      ensures exception.Ok? ==> (exception.value.Some? <==> task.id in exceptions)
      ensures exception.Ok? && exception.value.Some? ==> exception.value.value == exceptions[task.id]
    {
      if filter.None? then Err(TypeError)
      else if task.id in exceptions then Ok(Some(exceptions[task.id]))
      else Ok(None)
    }

    /** `edit<Field>`: opens the inline editor of one field of the `i`-th task. */
    method Edit(i: nat, f: Field)
      requires Valid() && userTasks.Some? && i < |userTasks.value|
      modifies this`userTasks
      ensures Valid() && userTasks.Some? && |userTasks.value| == |old(userTasks.value)|
      ensures var r := Open(old(RowAt(i)), f);
        && userTasks == Some(old(userTasks.value)[i := r.task])
        && copies == old(copies)[r.task.id := r.copy]
        && exceptions == Put(old(exceptions), r.task.id, r.exception)
    {
      var task := userTasks.value[i];
      assert task in userTasks.value;
      task := WithEditMode(task, f, true);
      userTasks := Some(userTasks.value[i := task]);
    }

    /** The edit form writing a value into the `i`-th task's snapshot. */
    method EditSnapshot(i: nat, f: Field, v: Option<string>)
      requires Valid() && userTasks.Some? && i < |userTasks.value|
      modifies this`copies
      ensures Valid()
      ensures var r := EditCopy(old(RowAt(i)), f, v);
        && userTasks == Some(old(userTasks.value)[i := r.task])
        && copies == old(copies)[r.task.id := r.copy]
        && exceptions == Put(old(exceptions), r.task.id, r.exception)
    {
      var task := userTasks.value[i];
      assert task in userTasks.value;
      copies := copies[task.id := WithValue(copies[task.id], f, v)];
      assert userTasks.value[i := task] == userTasks.value;
    }

    /**
     * `closeInPlace<Field>Editing`: closes the editor, sets the task's error
     * entry to null and resets the snapshot to the displayed values.
     */
    method CloseEditing(i: nat, f: Field)
      requires Valid() && userTasks.Some? && i < |userTasks.value|
      modifies this`userTasks, this`copies, this`exceptions
      ensures Valid() && userTasks.Some? && |userTasks.value| == |old(userTasks.value)|
      ensures var r := Close(old(RowAt(i)), f);
        && userTasks == Some(old(userTasks.value)[i := r.task])
        && copies == old(copies)[r.task.id := r.copy]
        && exceptions == Put(old(exceptions), r.task.id, r.exception)
    {
      var task := userTasks.value[i];
      assert task in userTasks.value;
      task := WithEditMode(task, f, false);
      userTasks := Some(userTasks.value[i := task]);
      exceptions := exceptions[task.id := Cleared];
      var copy := copies[task.id];
      copies := copies[task.id := Extend(copy, task)];
    }

    /**
     * `submit<Field>` with the response to the set request it issues: returns the
     * request, if one was issued, and leaves the row as `TaskView.Submit` says.
     */
    method Submit(form: Option<Form>, i: nat, f: Field, response: SetResponse) returns (call: Option<SetCall>)
      requires Valid() && userTasks.Some? && i < |userTasks.value|
      modifies this`userTasks, this`copies, this`exceptions
      ensures Valid()
      ensures var (r, c) := TaskView.Submit(old(RowAt(i)), form, f, settable, response);
        && call == c
        && userTasks == Some(old(userTasks.value)[i := r.task])
        && copies == old(copies)[r.task.id := r.copy]
        && exceptions == Put(old(exceptions), r.task.id, r.exception)
    {
      ghost var row := RowAt(i);
      assert userTasks.value[i := row.task] == userTasks.value;
      if !IsValid(form) {
        return None;
      }
      var task := userTasks.value[i];
      assert task in userTasks.value;
      var copy := copies[task.id];
      if ValueOf(task, f) == ValueOf(copy, f) {
        CloseEditing(i, f);
        return None;
      }
      if f !in settable {
        // the resource has no such action: calling it throws
        return None;
      }
      call := Some(SetCall(f, task.id, ValueOf(copy, f)));
      if task.instance.None? {
        // both callbacks read the task's activity instance name first and throw
        return;
      }
      match response {
        case Accepted =>
          ghost var listed := userTasks.value;
          userTasks := Some(userTasks.value[i := Extend(task, copy)]);
          assert Extend(task, copy).id == task.id;
          assert RowAt(i) == row.(task := Extend(row.task, row.copy));
          CloseEditing(i, f);
          assert userTasks.value == listed[i := userTasks.value[i]];
        case Rejected(data) =>
          exceptions := exceptions[task.id := Failed(data)];
      }
    }
  }
}
