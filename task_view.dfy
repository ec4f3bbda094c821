/**
 * Values and pure rules of the cockpit's user-task table (the "User Tasks" tab of
 * a process-instance view): how the shared filter becomes the page number and the
 * request parameters, how rows are paged, and how one row (a task, its snapshot
 * copy and its error entry) moves through the inline edit of assignee or owner.
 * The controller in module UserTasksTable keeps this state in place and is
 * specified by these functions.
 */
module TaskView {
  import opened Wrappers

  // ----------------------------------------------------------------------------
  // Filter values and request parameters
  // ----------------------------------------------------------------------------

  /** A value held in the shared filter or sent as a request parameter. */
  datatype Value = Null | Num(n: int) | Text(s: string) | Ids(ids: seq<string>)

  /** JavaScript truthiness of a value (`!!v`). */
  predicate Truthy(v: Value)
  {
    match v
    case Null => false
    case Num(n) => n != 0
    case Text(s) => s != ""
    case Ids(_) => true
  }

  /** An object of string keys: the filter, or the body of a request. */
  type Params = map<string, Value>

  const PAGE := "page"
  const ACTIVITY_IDS := "activityIds"
  const SCROLL_TO_BPMN_ELEMENT := "scrollToBpmnElement"
  const ACTIVITY_INSTANCE_IDS := "activityInstanceIds"
  const ACTIVITY_INSTANCE_ID_IN := "activityInstanceIdIn"
  const PROCESS_INSTANCE_ID := "processInstanceId"
  const PROCESS_DEFINITION_ID := "processDefinitionId"

  /** Filter keys that only steer the view and are removed before querying. */
  const ViewOnlyKeys: set<string> := {PAGE, ACTIVITY_IDS, SCROLL_TO_BPMN_ELEMENT}

  /** Keys whose request value is not simply the filter's value. */
  const ReservedKeys: set<string> :=
    ViewOnlyKeys + {ACTIVITY_INSTANCE_IDS, ACTIVITY_INSTANCE_ID_IN, PROCESS_INSTANCE_ID, PROCESS_DEFINITION_ID}

  /** The process instance whose tasks the table lists. */
  datatype ProcessInstance = ProcessInstance(id: string, definitionId: string)

  /** The page size of `DEFAULT_PAGES`. */
  const DefaultPageSize: int := 50

  // ----------------------------------------------------------------------------
  // Pages
  // ----------------------------------------------------------------------------

  /** The page a filter asks for, `newFilter.page || 1`: a missing or falsy entry means page 1. */
  function PageOfFilter(filter: Params): (page: int)
    ensures page != 0
    ensures PAGE !in filter || !Truthy(filter[PAGE]) ==> page == 1
    ensures PAGE in filter && filter[PAGE].Num? && Truthy(filter[PAGE]) ==> page == filter[PAGE].n
  {
    if PAGE in filter && filter[PAGE].Num? && filter[PAGE].n != 0 then filter[PAGE].n else 1
  }

  /** What the watch on `pages.current` hands to the search service. */
  datatype PageSearch =
    | NoPush              // the watch returns without calling the service
    | PushNull            // `search('page', null)`: drop the parameter
    | PushPage(page: int) // `search('page', page)`

  /**
   * The watch on `pages.current`: nothing when the page did not change, null for
   * page 1 or an empty page (0) so that default URLs stay clean, the page otherwise.
   */
  function PageWatch(newValue: int, oldValue: int): (push: PageSearch)
    ensures push == NoPush <==> newValue == oldValue
    ensures push == PushNull <==> newValue != oldValue && (newValue == 0 || newValue == 1)
    ensures push.PushPage? ==> push.page == newValue && push.page != 0 && push.page != 1
  {
    if newValue == oldValue then NoPush
    else if newValue == 0 || newValue == 1 then PushNull
    else PushPage(newValue)
  }

  /** The search service's effect on the filter: null removes the entry, a page number sets it. */
  function SearchPage(filter: Params, push: PageSearch): (updated: Params)
    ensures updated - {PAGE} == filter - {PAGE}
  {
    match push
    case NoPush => filter
    case PushNull => filter - {PAGE}
    case PushPage(p) => filter[PAGE := Num(p)]
  }

  /**
   * A page change read back: once the search service has applied what the watch
   * pushed, the filter observer sets `pages.current` to the page the user chose
   * (an empty page comes back as page 1).
   */
  lemma PageRoundTrip(filter: Params, newValue: int, oldValue: int)
    requires newValue != oldValue
    ensures PageOfFilter(SearchPage(filter, PageWatch(newValue, oldValue))) == if newValue == 0 then 1 else newValue
  {
  }

  /** The paging part of the list request. */
  datatype Paging = Paging(firstResult: int, maxResults: int)

  /** The window of a page: `firstResult = (page - 1) * size`, `maxResults = size`. */
  function PagingFor(page: int, size: int): (paging: Paging)
    ensures paging.maxResults == size
    ensures page == 1 ==> paging.firstResult == 0
  {
    Paging((page - 1) * size, size)
  }

  /** `Math.ceil(count / size)`: the fewest pages of `size` rows that hold `count` rows. */
  function TotalPages(count: nat, size: int): (total: nat)
    requires size > 0
    ensures count <= total * size
    ensures total > 0 ==> (total - 1) * size < count
    ensures total == 0 <==> count == 0
  {
    var q := (count + size - 1) / size;
    assert q * size + (count + size - 1) % size == count + size - 1;
    q
  }

  /** The count and list requests of one refresh: both carry `params`, the list request also `paging`. */
  datatype Request = Request(paging: Paging, params: Params)

  /** Each page's window starts where the previous one ends. */
  lemma {:induction false} PagesAdjacent(page: int, size: int)
    ensures PagingFor(page + 1, size).firstResult == PagingFor(page, size).firstResult + PagingFor(page, size).maxResults
  {
    assert page * size == (page - 1) * size + size;
  }

  /** Every page from 1 to the total starts at a row that exists. */
  lemma {:induction false} PageStartsInside(count: nat, size: int, page: int)
    requires size > 0 && 1 <= page <= TotalPages(count, size)
    ensures 0 <= PagingFor(page, size).firstResult < count
  {
    var total := TotalPages(count, size);
    assert (page - 1) * size <= (total - 1) * size by {
      assert (total - 1) * size - (page - 1) * size == (total - page) * size;
    }
  }

  /** Every row of the result lies in the window of the page `row / size + 1`, which is a page of the total (and, by `OnlyPageOfRow`, in no other). */
  lemma {:induction false} RowOnItsPage(count: nat, size: int, row: nat)
    requires size > 0 && row < count
    ensures var page := row / size + 1;
      && 1 <= page <= TotalPages(count, size)
      && PagingFor(page, size).firstResult <= row < PagingFor(page, size).firstResult + PagingFor(page, size).maxResults
  {
    var page := row / size + 1;
    var total := TotalPages(count, size);
    assert (page - 1) * size + row % size == row;
    CancelFactor(page - 1, total, size);
  }

  /** No other page's window holds the row: a row lies on exactly one page. */
  lemma {:induction false} OnlyPageOfRow(size: int, row: nat, page: int)
    requires size > 0
    requires PagingFor(page, size).firstResult <= row < PagingFor(page, size).firstResult + PagingFor(page, size).maxResults
    ensures page == row / size + 1
  {
    var k, m := page - 1, row / size;
    assert m * size + row % size == row;
    assert (k + 1) * size == k * size + size && (m + 1) * size == m * size + size;
    CancelFactor(k, m + 1, size);
    CancelFactor(m, k + 1, size);
  }

  /** Cancelling a positive factor: `a * c < b * c` with `c > 0` gives `a < b`. */
  lemma {:induction false} CancelFactor(a: int, b: int, c: int)
    requires c > 0 && a * c < b * c
    ensures a < b
  {
    assert (b - a) * c == b * c - a * c;
  }

  // ----------------------------------------------------------------------------
  // Request parameters
  // ----------------------------------------------------------------------------

  /** The controller's own copy of the filter: the view-only keys removed. */
  function StoredFilter(newFilter: Params): (filter: Params)
    ensures filter.Keys == newFilter.Keys - ViewOnlyKeys
    ensures forall k | k in filter :: filter[k] == newFilter[k]
  {
    newFilter - ViewOnlyKeys
  }

  /**
   * The parameters of the count and list requests: the stored filter, with the
   * process instance's ids on top, and `activityInstanceIds` sent under the
   * name `activityInstanceIdIn` (an absent entry is not sent).
   */
  function QueryParams(newFilter: Params, instance: ProcessInstance): (params: Params)
    ensures PAGE !in params && ACTIVITY_IDS !in params && SCROLL_TO_BPMN_ELEMENT !in params
    ensures ACTIVITY_INSTANCE_IDS !in params
    ensures PROCESS_INSTANCE_ID in params && params[PROCESS_INSTANCE_ID] == Text(instance.id)
    ensures PROCESS_DEFINITION_ID in params && params[PROCESS_DEFINITION_ID] == Text(instance.definitionId)
    ensures ACTIVITY_INSTANCE_ID_IN in params <==> ACTIVITY_INSTANCE_IDS in newFilter
    ensures ACTIVITY_INSTANCE_IDS in newFilter ==> params[ACTIVITY_INSTANCE_ID_IN] == newFilter[ACTIVITY_INSTANCE_IDS]
    ensures forall k | k !in ReservedKeys :: k in params <==> k in newFilter
    ensures forall k | k !in ReservedKeys && k in params :: params[k] == newFilter[k]
  {
    var merged := StoredFilter(newFilter)
      + map[PROCESS_INSTANCE_ID := Text(instance.id), PROCESS_DEFINITION_ID := Text(instance.definitionId)];
    var renamed :=
      if ACTIVITY_INSTANCE_IDS in merged then merged[ACTIVITY_INSTANCE_ID_IN := merged[ACTIVITY_INSTANCE_IDS]]
      else merged - {ACTIVITY_INSTANCE_ID_IN};
    renamed - {ACTIVITY_INSTANCE_IDS}
  }

  /** `activityId.split(':').shift()`: the part of an activity instance id before its first colon. */
  function ActivityIdOf(activityInstanceId: string): (activityId: string)
    ensures activityId <= activityInstanceId
    ensures ':' !in activityId
    ensures |activityId| < |activityInstanceId| ==> activityInstanceId[|activityId|] == ':'
  {
    if activityInstanceId == [] || activityInstanceId[0] == ':' then []
    else [activityInstanceId[0]] + ActivityIdOf(activityInstanceId[1..])
  }

  /** The filter that selecting an activity instance row publishes. */
  function SelectActivity(filter: Params, activityInstanceId: string): (selected: Params)
    ensures selected.Keys == filter.Keys + {ACTIVITY_INSTANCE_IDS, ACTIVITY_IDS}
    ensures selected[ACTIVITY_INSTANCE_IDS] == Ids([activityInstanceId])
    ensures selected[ACTIVITY_IDS] == Ids([ActivityIdOf(activityInstanceId)])
    ensures forall k | k in filter && k != ACTIVITY_INSTANCE_IDS && k != ACTIVITY_IDS :: selected[k] == filter[k]
  {
    filter[ACTIVITY_INSTANCE_IDS := Ids([activityInstanceId])][ACTIVITY_IDS := Ids([ActivityIdOf(activityInstanceId)])]
  }

  /** A selected activity instance reaches the task query as the only id of `activityInstanceIdIn`. */
  lemma SelectionIsQueried(filter: Params, activityInstanceId: string, instance: ProcessInstance)
    ensures var params := QueryParams(SelectActivity(filter, activityInstanceId), instance);
      ACTIVITY_INSTANCE_ID_IN in params && params[ACTIVITY_INSTANCE_ID_IN] == Ids([activityInstanceId])
  {
  }

  // ----------------------------------------------------------------------------
  // Tasks and their edit state
  // ----------------------------------------------------------------------------

  /** What a property read on an undefined object throws. */
  datatype ScriptError = TypeError

  /** The two fields that can be edited inline. */
  datatype Field = Assignee | Owner

  function Other(f: Field): Field
  {
    if f == Assignee then Owner else Assignee
  }

  /** An activity instance of the process instance, looked up by execution id. */
  datatype Instance = Instance(id: string, name: string)

  /** A task as the list endpoint returns it. */
  datatype TaskData = TaskData(id: string, executionId: string, name: string, assignee: Option<string>, owner: Option<string>)

  /**
   * A task object as the table holds it: the endpoint's fields, the activity
   * instance attached on arrival, and the `in<Field>EditMode` flags (false when
   * the property is absent).
   */
  datatype Task = Task(
    id: string, executionId: string, name: string,
    assignee: Option<string>, owner: Option<string>,
    instance: Option<Instance>,
    inAssigneeEditMode: bool, inOwnerEditMode: bool)

  /** A fetched task with its activity instance attached (`undefined` when the execution is unknown). */
  function Arrived(data: TaskData, instances: map<string, Instance>): (task: Task)
    ensures task.id == data.id && task.executionId == data.executionId && task.name == data.name
    ensures task.assignee == data.assignee && task.owner == data.owner
    ensures task.instance.Some? <==> data.executionId in instances
    ensures task.instance.Some? ==> task.instance.value == instances[data.executionId]
    ensures !task.inAssigneeEditMode && !task.inOwnerEditMode
  {
    Task(data.id, data.executionId, data.name, data.assignee, data.owner,
         if data.executionId in instances then Some(instances[data.executionId]) else None,
         false, false)
  }

  /** The list response's tasks with their activity instances attached, in order. */
  function Arrivals(resource: seq<TaskData>, instances: map<string, Instance>): (tasks: seq<Task>)
    ensures |tasks| == |resource|
    ensures forall j | 0 <= j < |resource| :: tasks[j] == Arrived(resource[j], instances)
  {
    seq(|resource|, j requires 0 <= j < |resource| => Arrived(resource[j], instances))
  }

  /** The copy map after a snapshot of each task is stored under its id, in list order. */
  function Snapshots(copies: map<string, Task>, tasks: seq<Task>): (r: map<string, Task>)
    ensures r.Keys == copies.Keys + set t | t in tasks :: t.id
    ensures forall t | t in tasks :: r[t.id].id == t.id
    ensures forall id | id in copies && (forall t | t in tasks :: t.id != id) :: r[id] == copies[id]
  {
    if tasks == [] then copies
    else
      var last := tasks[|tasks| - 1];
      assert tasks == tasks[..|tasks| - 1] + [last];
      Snapshots(copies, tasks[..|tasks| - 1])[last.id := last]
  }

  /** The task ids of a list are pairwise distinct. */
  predicate DistinctIds(tasks: seq<Task>)
  {
    forall j, k | 0 <= j < k < |tasks| :: tasks[j].id != tasks[k].id
  }

  /** When the ids are distinct, every task's snapshot is an exact copy of it. */
  lemma {:induction false} SnapshotOfEachTask(copies: map<string, Task>, tasks: seq<Task>, j: nat)
    requires DistinctIds(tasks) && j < |tasks|
    ensures Snapshots(copies, tasks)[tasks[j].id] == tasks[j]
    decreases |tasks|
  {
    var n := |tasks| - 1;
    if j < n {
      var prefix := tasks[..n];
      assert DistinctIds(prefix);
      assert prefix[j] == tasks[j];
      SnapshotOfEachTask(copies, prefix, j);
      assert tasks[n].id != tasks[j].id;
    }
  }

  /** The error map with one task's entry set (`Some`) or absent (`None`). */
  function Put(m: map<string, Exception>, k: string, v: Option<Exception>): (r: map<string, Exception>)
    ensures v.Some? ==> k in r && r[k] == v.value
    ensures v.None? ==> k !in r
    ensures forall k' | k' != k :: (k' in r <==> k' in m) && (k' in r ==> r[k'] == m[k'])
  {
    if v.Some? then m[k := v.value] else m - {k}
  }

  function ValueOf(t: Task, f: Field): Option<string>
  {
    match f
    case Assignee => t.assignee
    case Owner => t.owner
  }

  predicate InEditMode(t: Task, f: Field)
  {
    match f
    case Assignee => t.inAssigneeEditMode
    case Owner => t.inOwnerEditMode
  }

  /** The two tasks agree on every property except the edit-mode flags. */
  predicate SameData(a: Task, b: Task)
  {
    a.id == b.id && a.executionId == b.executionId && a.name == b.name
    && a.assignee == b.assignee && a.owner == b.owner && a.instance == b.instance
  }

  /** Sets (`true`) or deletes (`false`) the edit-mode flag of one field. */
  function WithEditMode(t: Task, f: Field, on: bool): (r: Task)
    ensures SameData(r, t)
    ensures InEditMode(r, f) == on && InEditMode(r, Other(f)) == InEditMode(t, Other(f))
  {
    match f
    case Assignee => t.(inAssigneeEditMode := on)
    case Owner => t.(inOwnerEditMode := on)
  }

  /** Writes one field's value: the edit form's binding to the snapshot. */
  function WithValue(t: Task, f: Field, v: Option<string>): (r: Task)
    ensures ValueOf(r, f) == v && ValueOf(r, Other(f)) == ValueOf(t, Other(f))
    ensures r.id == t.id && r.executionId == t.executionId && r.name == t.name && r.instance == t.instance
    ensures forall g :: InEditMode(r, g) == InEditMode(t, g)
  {
    match f
    case Assignee => t.(assignee := v)
    case Owner => t.(owner := v)
  }

  /**
   * `angular.extend(dest, src)` on task objects: every property `src` has is
   * copied over. The data properties are always present; an edit-mode flag is
   * present only while set, so a flag of `dest` is never removed.
   */
  function Extend(dest: Task, src: Task): (r: Task)
    ensures SameData(r, src)
    ensures forall g :: InEditMode(r, g) <==> InEditMode(dest, g) || InEditMode(src, g)
  {
    src.(inAssigneeEditMode := dest.inAssigneeEditMode || src.inAssigneeEditMode,
         inOwnerEditMode := dest.inOwnerEditMode || src.inOwnerEditMode)
  }

  /** What `getExceptionForUserTask` can return besides `undefined`. */
  datatype Exception = Cleared | Failed(data: string)

  /** One row's share of the controller state: the task, its snapshot, its error entry. */
  datatype Row = Row(task: Task, copy: Task, exception: Option<Exception>)

  /** `edit<Field>`: only that field's edit flag is set. */
  function Open(row: Row, f: Field): (r: Row)
    ensures InEditMode(r.task, f)
    ensures SameData(r.task, row.task) && InEditMode(r.task, Other(f)) == InEditMode(row.task, Other(f))
    ensures r.copy == row.copy && r.exception == row.exception
  {
    row.(task := WithEditMode(row.task, f, true))
  }

  /**
   * `closeInPlace<Field>Editing`: the flag is removed, the error entry becomes
   * null and the snapshot is overwritten with the task's displayed values.
   */
  function Close(row: Row, f: Field): (r: Row)
    ensures !InEditMode(r.task, f)
    ensures SameData(r.task, row.task) && InEditMode(r.task, Other(f)) == InEditMode(row.task, Other(f))
    ensures r.exception == Some(Cleared)
    ensures SameData(r.copy, row.task)
    ensures forall g :: InEditMode(r.copy, g) <==> InEditMode(row.copy, g) || InEditMode(r.task, g)
  {
    var task := WithEditMode(row.task, f, false);
    Row(task, Extend(row.copy, task), Some(Cleared))
  }

  /** The edit form writing a value into the snapshot (the form is bound to `getCopy(task.id)`). */
  function EditCopy(row: Row, f: Field, v: Option<string>): (r: Row)
    ensures ValueOf(r.copy, f) == v
    ensures ValueOf(r.copy, Other(f)) == ValueOf(row.copy, Other(f))
    ensures r.copy.id == row.copy.id && r.copy.executionId == row.copy.executionId
    ensures r.copy.name == row.copy.name && r.copy.instance == row.copy.instance
    ensures forall g :: InEditMode(r.copy, g) == InEditMode(row.copy, g)
    ensures r.task == row.task && r.exception == row.exception
  {
    row.(copy := WithValue(row.copy, f, v))
  }

  /** The edit form as `isValid` sees it: absent, or with its `$invalid` flag. */
  datatype Form = Form(invalid: bool)

  /** `isValid`: a missing form is never valid; a present one is valid iff it is not `$invalid`. */
  function IsValid(form: Option<Form>): (valid: bool)
    ensures form.None? ==> !valid
    ensures form.Some? ==> (valid <==> !form.value.invalid)
  {
    form.Some? && !form.value.invalid
  }

  /** The outcome of a set-assignee/set-owner request. */
  datatype SetResponse = Accepted | Rejected(data: string)

  /** A set request as issued: `{id: task.id}` and `{userId: copy[field]}`. */
  datatype SetCall = SetCall(field: Field, taskId: string, userId: Option<string>)

  /**
   * `submit<Field>` followed by the request's callback, with `settable` the
   * fields the task resource defines a set action for. The row and the request
   * issued, if any. When no set action exists the call throws before anything
   * happens; when the task has no activity instance both callbacks throw while
   * composing their notification, before they touch the row.
   */
  function Submit(row: Row, form: Option<Form>, f: Field, settable: set<Field>, response: SetResponse): (result: (Row, Option<SetCall>))
    ensures !IsValid(form) ==> result == (row, None)
    ensures result.1.Some? <==> IsValid(form) && ValueOf(row.task, f) != ValueOf(row.copy, f) && f in settable
    ensures result.1.Some? ==> result.1.value == SetCall(f, row.task.id, ValueOf(row.copy, f))
    ensures IsValid(form) && ValueOf(row.task, f) != ValueOf(row.copy, f) && (f !in settable || row.task.instance.None?)
      ==> result.0 == row
  {
    if !IsValid(form) then (row, None)
    else if ValueOf(row.task, f) == ValueOf(row.copy, f) then (Close(row, f), None)
    else if f !in settable then (row, None)
    else
      var call := Some(SetCall(f, row.task.id, ValueOf(row.copy, f)));
      if row.task.instance.None? then (row, call)
      else match response
        case Accepted => (Close(row.(task := Extend(row.task, row.copy)), f), call)
        case Rejected(data) => (row.(exception := Some(Failed(data))), call)
  }

  /** An unchanged value issues no request and closes the editor. */
  lemma SubmitUnchanged(row: Row, form: Option<Form>, f: Field, settable: set<Field>, response: SetResponse)
    requires IsValid(form) && ValueOf(row.copy, f) == ValueOf(row.task, f)
    ensures var (r, call) := Submit(row, form, f, settable, response);
      && call == None
      && !InEditMode(r.task, f) && SameData(r.task, row.task)
      && r.exception == Some(Cleared)
  {
  }

  /**
   * An accepted change is committed: the task shows the submitted value, the
   * editor is closed, the error entry is null and the snapshot agrees with the
   * task again.
   */
  lemma SubmitAccepted(row: Row, form: Option<Form>, f: Field, settable: set<Field>)
    requires IsValid(form) && ValueOf(row.copy, f) != ValueOf(row.task, f)
    requires f in settable && row.task.instance.Some?
    ensures var (r, call) := Submit(row, form, f, settable, Accepted);
      && call == Some(SetCall(f, row.task.id, ValueOf(row.copy, f)))
      && ValueOf(r.task, f) == ValueOf(row.copy, f)
      && SameData(r.task, row.copy)
      && !InEditMode(r.task, f)
      && r.exception == Some(Cleared)
      && SameData(r.copy, r.task)
  {
  }

  /**
   * A rejected change records the error under the task and leaves the
   * displayed task, its edit flags and the snapshot as they were.
   */
  lemma SubmitRejected(row: Row, form: Option<Form>, f: Field, settable: set<Field>, data: string)
    requires IsValid(form) && ValueOf(row.copy, f) != ValueOf(row.task, f)
    requires f in settable && row.task.instance.Some?
    ensures var (r, call) := Submit(row, form, f, settable, Rejected(data));
      && call == Some(SetCall(f, row.task.id, ValueOf(row.copy, f)))
      && r.task == row.task && r.copy == row.copy
      && r.exception == Some(Failed(data))
  {
  }

  /** Cancelling discards what was typed: a submit right after a cancel issues no request. */
  lemma {:induction false} CancelDiscardsEdit(row: Row, f: Field, v: Option<string>, form: Option<Form>, settable: set<Field>, response: SetResponse)
    requires IsValid(form)
    ensures var cancelled := Close(EditCopy(Open(row, f), f, v), f);
      && ValueOf(cancelled.copy, f) == ValueOf(row.task, f)
      && Submit(cancelled, form, f, settable, response).1 == None
  {
    var cancelled := Close(EditCopy(Open(row, f), f, v), f);
    assert SameData(cancelled.copy, cancelled.task);
  }

  /**
   * The snapshot keeps the edit flags it was extended with: cancelling the
   * assignee editor while the owner editor is open copies the owner flag into the
   * snapshot, and a later accepted assignee change copies it back, so the owner
   * editor shows again although it was closed in between.
   */
  lemma ClosedEditorReopens(row: Row, form: Option<Form>, settable: set<Field>, v: Option<string>)
    requires IsValid(form) && Assignee in settable && row.task.instance.Some?
    requires v != ValueOf(row.task, Assignee)
    ensures var closedBoth := Close(Close(Open(Open(row, Owner), Assignee), Assignee), Owner);
      && !InEditMode(closedBoth.task, Owner) && !InEditMode(closedBoth.task, Assignee)
      && var committed := Submit(EditCopy(Open(closedBoth, Assignee), Assignee, v), form, Assignee, settable, Accepted).0;
      InEditMode(committed.task, Owner)
  {
  }
}
