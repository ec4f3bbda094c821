# User tasks table and event subscription declarations

This project models two pieces of the Camunda BPM platform in Dafny and
proves properties of them.

**The "User Tasks" tab of the cockpit's process-instance view.** This is the
AngularJS `UserTaskController` (`userTasksTable.js`). The model covers:

- the two-way binding between `pages.current` and the `page` entry of the
  shared filter (the watch and the filter observer);
- `updateView`, which builds the count and list requests for the current page
  and the stored filter;
- the arrival of the count and the task list;
- `getCopy`, `getExceptionForUserTask` and `isValid`;
- the inline "delegation" editor of a task's assignee and owner: `edit*`,
  `closeInPlace*Editing` and `submit*`, with the outcome of the set request.

Module `TaskView` holds the values and the rules as functions. Module
`UserTasksTable` holds the controller as a class. Its fields are the state the
controller keeps on its scope and in its closure. Each method is specified by
the `TaskView` functions. Requests are returned to the caller. Their responses
come back as method arguments.

**The engine's `EventSubscriptionDeclaration`.** This is the message or signal
event that a BPMN scope waits for. The model covers:

- the cached `isParallelMultiInstance`;
- `createSubscription`, `createSubscriptionForParallelMultiInstance` and
  `createEventSubscription`;
- `getDeclarationsForScope`;
- `handleSequentialMultiInstanceLeave`, which replaces each of the execution's
  subscriptions of the declaration's event type by a new one.

The execution is a class. It holds the definition's activities by id, its list
of subscriptions and the next id the persistence layer hands out. Its invariant
is that the ids are distinct and all below that next id. The leave loop is
proved against the function `Leave`. The lemmas about `Leave` state what it
keeps and what it renews.

`taskResource.js` defines no `setOwner` action: it is commented out. The controller
is given the set of fields its resource can set. Submitting a changed owner
throws before any request is issued, and no state changes.

Exceptions are modelled as results:

- a null dereference or an unknown event type in the engine becomes
  `Err(...)`;
- a callback that throws in the controller leaves the state as it was at the
  throw.

## Model

| member | source | states |
|---|---|---|
| TaskView.PageOfFilter | webapps/camunda-webapp/webapp/src/main/webapp/plugin/base/app/views/processInstance/userTasksTable.js:30 | `newFilter.page \|\| 1`: a missing or falsy page reads as 1, a numeric page as itself; the result is never the empty page 0 |
| TaskView.PageWatch | webapps/camunda-webapp/webapp/src/main/webapp/plugin/base/app/views/processInstance/userTasksTable.js:21-27 | nothing is pushed iff the page is unchanged; null is pushed iff it changed to 1 or 0; otherwise the new page itself, never 0 or 1 |
| TaskView.SearchPage | webapps/camunda-webapp/webapp/src/main/webapp/plugin/base/app/views/processInstance/userTasksTable.js:26 | the search service's update touches only the `page` entry of the filter |
| TaskView.PageRoundTrip | webapps/camunda-webapp/webapp/src/main/webapp/plugin/base/app/views/processInstance/userTasksTable.js:21-33 | a page change pushed by the watch is read back by the observer as the same page; an empty page comes back as 1 |
| TaskView.PagingFor | webapps/camunda-webapp/webapp/src/main/webapp/plugin/base/app/views/processInstance/userTasksTable.js:42-54 | the window holds a page size of rows, and page 1 starts at row 0 |
| TaskView.TotalPages | webapps/camunda-webapp/webapp/src/main/webapp/plugin/base/app/views/processInstance/userTasksTable.js:68 | `Math.ceil(count / size)`: the pages hold every row, one page fewer would not, and there are no pages iff there are no rows |
| TaskView.PagesAdjacent | webapps/camunda-webapp/webapp/src/main/webapp/plugin/base/app/views/processInstance/userTasksTable.js:42-54 | each page's window starts right after the previous one ends |
| TaskView.PageStartsInside | webapps/camunda-webapp/webapp/src/main/webapp/plugin/base/app/views/processInstance/userTasksTable.js:42-68 | every page from 1 to `pages.total` starts at a row that exists |
| TaskView.RowOnItsPage | webapps/camunda-webapp/webapp/src/main/webapp/plugin/base/app/views/processInstance/userTasksTable.js:42-68 | every row lies in the window of page `row / size + 1`, and that page is within `pages.total` |
| TaskView.OnlyPageOfRow | webapps/camunda-webapp/webapp/src/main/webapp/plugin/base/app/views/processInstance/userTasksTable.js:42-54 | a page whose window holds a row is page `row / size + 1`: no two windows share a row |
| TaskView.StoredFilter | webapps/camunda-webapp/webapp/src/main/webapp/plugin/base/app/views/processInstance/userTasksTable.js:36-40 | the stored filter is the new filter without `page`, `activityIds` and `scrollToBpmnElement`, with every other entry unchanged |
| TaskView.QueryParams | webapps/camunda-webapp/webapp/src/main/webapp/plugin/base/app/views/processInstance/userTasksTable.js:46-60 | the request parameters carry the process instance and definition ids; `activityInstanceIds` is renamed to `activityInstanceIdIn`, present iff the filter has it; the view-only keys are dropped; every other filter entry is passed through unchanged |
| TaskView.ActivityIdOf | webapps/camunda-webapp/webapp/src/main/webapp/plugin/base/app/views/processInstance/userTasksTable.js:180 | `split(':').shift()`: the longest prefix without a colon, ending at the first colon if there is one |
| TaskView.SelectActivity | webapps/camunda-webapp/webapp/src/main/webapp/plugin/base/app/views/processInstance/userTasksTable.js:176-182 | the published filter adds the selected activity instance id and its activity id, and keeps every other entry |
| TaskView.SelectionIsQueried | webapps/camunda-webapp/webapp/src/main/webapp/plugin/base/app/views/processInstance/userTasksTable.js:176-182 | a selected activity instance reaches the task query as the only id of `activityInstanceIdIn`, with the activity ids dropped |
| TaskView.Arrived | webapps/camunda-webapp/webapp/src/main/webapp/plugin/base/app/views/processInstance/userTasksTable.js:72-73 | a fetched task keeps its data and gets the activity instance of its execution, `undefined` when the execution is unknown |
| TaskView.Arrivals | webapps/camunda-webapp/webapp/src/main/webapp/plugin/base/app/views/processInstance/userTasksTable.js:71-77 | the listed tasks are the fetched ones, in order, each with its instance attached |
| TaskView.Snapshots | webapps/camunda-webapp/webapp/src/main/webapp/plugin/base/app/views/processInstance/userTasksTable.js:74 | after the loop, every listed task has a snapshot under its id and no other entry changes |
| TaskView.SnapshotOfEachTask | webapps/camunda-webapp/webapp/src/main/webapp/plugin/base/app/views/processInstance/userTasksTable.js:72-75 | with distinct task ids, each task's snapshot is an exact copy of it |
| TaskView.WithEditMode | webapps/camunda-webapp/webapp/src/main/webapp/plugin/base/app/views/processInstance/userTasksTable.js:104-109 | setting or deleting one `in<Field>EditMode` flag changes no data and not the other field's flag |
| TaskView.Extend | webapps/camunda-webapp/webapp/src/main/webapp/plugin/base/app/views/processInstance/userTasksTable.js:116 | `angular.extend` copies the source's data, and a flag is set iff either task has it set |
| TaskView.Open | webapps/camunda-webapp/webapp/src/main/webapp/plugin/base/app/views/processInstance/userTasksTable.js:104-106 | `edit<Field>` sets that field's flag only; the snapshot and the error entry are untouched |
| TaskView.Close | webapps/camunda-webapp/webapp/src/main/webapp/plugin/base/app/views/processInstance/userTasksTable.js:108-117 | `closeInPlace<Field>Editing` clears the flag and sets the error entry to null; the snapshot takes the task's displayed values and keeps its own flags |
| TaskView.EditCopy | webapps/camunda-webapp/webapp/src/main/webapp/plugin/base/app/views/processInstance/userTasksTable.js:86-88 | the edit form sets one field of the snapshot `getCopy` returns; the snapshot's other field, data and edit flags, the task and its error entry stay as they were |
| TaskView.IsValid | webapps/camunda-webapp/webapp/src/main/webapp/plugin/base/app/views/processInstance/userTasksTable.js:90-96 | a missing form is invalid; a present one is valid iff it is not `$invalid` |
| TaskView.Submit | webapps/camunda-webapp/webapp/src/main/webapp/plugin/base/app/views/processInstance/userTasksTable.js:119-163 | an invalid form (`isValid` false) changes nothing; a request is issued iff the form is valid, the value changed and the resource has the set action; the request carries the task id and the snapshot's value; a changed value with no set action, or on a task without activity instance, leaves the row as it was |
| TaskView.SubmitUnchanged | webapps/camunda-webapp/webapp/src/main/webapp/plugin/base/app/views/processInstance/userTasksTable.js:128-132 | an unchanged value issues no request and closes the editor |
| TaskView.SubmitAccepted | webapps/camunda-webapp/webapp/src/main/webapp/plugin/base/app/views/processInstance/userTasksTable.js:136-147 | an accepted change shows the submitted value, closes the editor, nulls the error entry, and leaves the snapshot in agreement with the task |
| TaskView.SubmitRejected | webapps/camunda-webapp/webapp/src/main/webapp/plugin/base/app/views/processInstance/userTasksTable.js:150-161 | a rejected change records the error data under the task and leaves the task and its snapshot as they were |
| TaskView.CancelDiscardsEdit | webapps/camunda-webapp/webapp/src/main/webapp/plugin/base/app/views/processInstance/userTasksTable.js:108-132 | after edit, type and cancel, a submit issues no request |
| TaskView.ClosedEditorReopens | webapps/camunda-webapp/webapp/src/main/webapp/plugin/base/app/views/processInstance/userTasksTable.js:108-147 | a closed owner editor shows again after a later accepted assignee change, because the snapshot kept the owner flag |
| UserTasksTable.UserTaskController.constructor | webapps/camunda-webapp/webapp/src/main/webapp/plugin/base/app/views/processInstance/userTasksTable.js:10-19 | the controller starts on page 1 of 0; the watch has not run yet; the filter is null; no tasks are listed; the snapshot and error maps are undefined until the first refresh (lookups throw, see `GetCopy`) |
| UserTasksTable.UserTaskController.SetPage | webapps/camunda-webapp/webapp/src/main/webapp/plugin/base/app/views/processInstance/userTasksTable.js:17 | the pagination control writes `pages.current` |
| UserTasksTable.UserTaskController.WatchPage | webapps/camunda-webapp/webapp/src/main/webapp/plugin/base/app/views/processInstance/userTasksTable.js:21-27 | the first digest pushes nothing whatever the page; a later one pushes `PageWatch` of the current and the last seen page; the current page is recorded as seen |
| UserTasksTable.UserTaskController.ObserveFilter | webapps/camunda-webapp/webapp/src/main/webapp/plugin/base/app/views/processInstance/userTasksTable.js:29-33 | the page becomes the filter's page and the view is refreshed with the given instance map, as `UpdateView` states |
| UserTasksTable.UserTaskController.UpdateView | webapps/camunda-webapp/webapp/src/main/webapp/plugin/base/app/views/processInstance/userTasksTable.js:35-65 | the filter is stored (no longer null) without the view-only keys; the requests carry the current page's window and `QueryParams`; tasks, snapshots and errors are emptied; the instance map is kept for the list response |
| UserTasksTable.UserTaskController.ReceiveCount | webapps/camunda-webapp/webapp/src/main/webapp/plugin/base/app/views/processInstance/userTasksTable.js:67-69 | `pages.total` becomes `TotalPages` of the count |
| UserTasksTable.UserTaskController.ReceiveTasks | webapps/camunda-webapp/webapp/src/main/webapp/plugin/base/app/views/processInstance/userTasksTable.js:71-78 | the shown list is `Arrivals` of the response with the instance map of the refresh; the snapshot map is `Snapshots` of the old one; every listed task has a snapshot |
| UserTasksTable.UserTaskController.GetCopy | webapps/camunda-webapp/webapp/src/main/webapp/plugin/base/app/views/processInstance/userTasksTable.js:86-88 | throws iff no refresh has run yet; otherwise the snapshot under the id, `undefined` iff there is none |
| UserTasksTable.UserTaskController.GetException | webapps/camunda-webapp/webapp/src/main/webapp/plugin/base/app/views/processInstance/userTasksTable.js:172-174 | throws iff no refresh has run yet; otherwise the task's error entry, `undefined` iff there is none |
| UserTasksTable.UserTaskController.Edit | webapps/camunda-webapp/webapp/src/main/webapp/plugin/base/app/views/processInstance/userTasksTable.js:104-106 | the row becomes `Open` of the row; the other rows and maps are unchanged |
| UserTasksTable.UserTaskController.EditSnapshot | webapps/camunda-webapp/webapp/src/main/webapp/plugin/base/app/views/processInstance/userTasksTable.js:86-88 | the row becomes `EditCopy` of the row |
| UserTasksTable.UserTaskController.CloseEditing | webapps/camunda-webapp/webapp/src/main/webapp/plugin/base/app/views/processInstance/userTasksTable.js:108-117 | the row becomes `Close` of the row |
| UserTasksTable.UserTaskController.Submit | webapps/camunda-webapp/webapp/src/main/webapp/plugin/base/app/views/processInstance/userTasksTable.js:119-163 | the row and the issued request are those of `TaskView.Submit` for the given response; every listed task keeps a snapshot |
| EventSubscriptions.WithoutIdMembers | engine/src/main/java/org/camunda/bpm/engine/impl/bpmn/parser/EventSubscriptionDeclaration.java:157 | deleting a subscription keeps exactly those with another id |
| EventSubscriptions.OfOtherTypesMembers | engine/src/main/java/org/camunda/bpm/engine/impl/bpmn/parser/EventSubscriptionDeclaration.java:155-156 | the subscriptions the leave loop skips are exactly those of another event type |
| EventSubscriptions.LeaveKeepsEventTypes | engine/src/main/java/org/camunda/bpm/engine/impl/bpmn/parser/EventSubscriptionDeclaration.java:153-162 | leaving with a buildable subscription keeps the multiset of event types |
| EventSubscriptions.LeaveKeepsLength | engine/src/main/java/org/camunda/bpm/engine/impl/bpmn/parser/EventSubscriptionDeclaration.java:153-162 | leaving with a buildable subscription keeps the number of subscriptions |
| EventSubscriptions.Execution.Insert | engine/src/main/java/org/camunda/bpm/engine/impl/bpmn/parser/EventSubscriptionDeclaration.java:135 | `insert()` appends the subscription under the next id and uses up that id; the ids stay distinct |
| EventSubscriptions.Execution.Delete | engine/src/main/java/org/camunda/bpm/engine/impl/bpmn/parser/EventSubscriptionDeclaration.java:157 | `delete()` removes the subscription with that id and keeps the rest in order; the ids stay distinct |
| EventSubscriptions.ParallelMultiInstanceOf | engine/src/main/java/org/camunda/bpm/engine/impl/bpmn/parser/EventSubscriptionDeclaration.java:76-80 | false without an activity id; a null-pointer error iff the activity is missing; true iff the activity's behaviour is parallel multi-instance |
| EventSubscriptions.Memoised | engine/src/main/java/org/camunda/bpm/engine/impl/bpmn/parser/EventSubscriptionDeclaration.java:74-84 | a cached answer is returned as it is; without one, the lookup decides |
| EventSubscriptions.EntityTypeFor | engine/src/main/java/org/camunda/bpm/engine/impl/bpmn/parser/EventSubscriptionDeclaration.java:120-127 | an entity type exists iff the event type is "message" or "signal"; a null type is a null-pointer error; any other type is "unknown type" |
| EventSubscriptions.NewSubscription | engine/src/main/java/org/camunda/bpm/engine/impl/bpmn/parser/EventSubscriptionDeclaration.java:119-133 | the built subscription has the declaration's type and name; its activity is left at the default iff there is no activity id, else set to the found activity or null |
| EventSubscriptions.DeclarationsForScope | engine/src/main/java/org/camunda/bpm/engine/impl/bpmn/parser/EventSubscriptionDeclaration.java:140-147 | the scope's declaration list, or the empty list when the property is absent |
| EventSubscriptions.Leave | engine/src/main/java/org/camunda/bpm/engine/impl/bpmn/parser/EventSubscriptionDeclaration.java:153-162 | a null event type, or no subscription of that type, changes nothing; leaving fails iff there is a match and the subscription cannot be built, with that error; the next id never decreases |
| EventSubscriptions.LeaveReplaces | engine/src/main/java/org/camunda/bpm/engine/impl/bpmn/parser/EventSubscriptionDeclaration.java:153-162 | when the subscription can be built, leaving succeeds and keeps the other types' subscriptions in order; as many of the type remain as before, each the built subscription under a new id, and one id is used per replacement |
| EventSubscriptions.LeaveKeepsFresh | engine/src/main/java/org/camunda/bpm/engine/impl/bpmn/parser/EventSubscriptionDeclaration.java:153-162 | whether leaving succeeds or throws, the ids stay distinct and below the next id |
| EventSubscriptions.EventSubscriptionDeclaration.constructor | engine/src/main/java/org/camunda/bpm/engine/impl/bpmn/parser/EventSubscriptionDeclaration.java:41-52 | name and type as given; not async, no activity id, not a start event, nothing cached |
| EventSubscriptions.EventSubscriptionDeclaration.SetAsync | engine/src/main/java/org/camunda/bpm/engine/impl/bpmn/parser/EventSubscriptionDeclaration.java:62-64 | sets the async flag |
| EventSubscriptions.EventSubscriptionDeclaration.SetActivityId | engine/src/main/java/org/camunda/bpm/engine/impl/bpmn/parser/EventSubscriptionDeclaration.java:66-68 | sets the activity id and leaves the cache as it is |
| EventSubscriptions.EventSubscriptionDeclaration.SetStartEvent | engine/src/main/java/org/camunda/bpm/engine/impl/bpmn/parser/EventSubscriptionDeclaration.java:90-92 | sets the start-event flag |
| EventSubscriptions.EventSubscriptionDeclaration.IsParallelMultiInstance | engine/src/main/java/org/camunda/bpm/engine/impl/bpmn/parser/EventSubscriptionDeclaration.java:74-84 | returns `Memoised` of the old cache; a cached answer is never changed; a successful answer is cached |
| EventSubscriptions.EventSubscriptionDeclaration.CreateEventSubscription | engine/src/main/java/org/camunda/bpm/engine/impl/bpmn/parser/EventSubscriptionDeclaration.java:119-137 | on an error nothing is inserted; otherwise `NewSubscription` is appended under the next id and returned |
| EventSubscriptions.EventSubscriptionDeclaration.CreateSubscription | engine/src/main/java/org/camunda/bpm/engine/impl/bpmn/parser/EventSubscriptionDeclaration.java:98-104 | nothing for a start event, without consulting the cache; otherwise the lookup error, nothing for a parallel multi-instance activity, else a created subscription |
| EventSubscriptions.EventSubscriptionDeclaration.CreateSubscriptionForParallelMultiInstance | engine/src/main/java/org/camunda/bpm/engine/impl/bpmn/parser/EventSubscriptionDeclaration.java:106-112 | a created subscription iff the cache holds true; nothing when it holds false; a null-pointer error with an empty cache |
| EventSubscriptions.EventSubscriptionDeclaration.Renew | engine/src/main/java/org/camunda/bpm/engine/impl/bpmn/parser/EventSubscriptionDeclaration.java:157-158 | one matched subscription is deleted, then a new one is appended under the next id, or the error is returned after the deletion |
| EventSubscriptions.EventSubscriptionDeclaration.HandleSequentialMultiInstanceLeave | engine/src/main/java/org/camunda/bpm/engine/impl/bpmn/parser/EventSubscriptionDeclaration.java:153-162 | the result, the new list and the next id are those of `Leave`, so `LeaveReplaces` and `LeaveKeepsFresh` apply; the ids stay distinct |

## Left out

- HTTP, notifications and the asynchronous order of the two responses are
  left out. Requests are returned, and each response is an argument of the
  method that handles it, applied at once.
- TaskView.SearchPage: the search service and the step from the URL back to
  the shared filter are not part of this model. `SearchPage` assumes that a
  pushed page returns to the filter as a number under `page`, and
  `TaskView.PageRoundTrip` holds only under that assumption. A page that came
  back as a URL string would read as 1 (see `TaskView.PageOfFilter` below).
- Notification texts (`Notifications.addMessage` and `addError`) are left out.
  Only their one effect on the state is kept: the callback throws when the task
  has no activity instance.
- `getHref` (userTasksTable.js:82-84) builds a link only, and is left out.
- The view registration (userTasksTable.js:187-200) is configuration, not
  behaviour, and is left out.
- `processData.newChild` is left out: the observer is a method that takes the
  new filter and the execution-to-instance map. The list response is applied
  with the map of the latest refresh; a late response to an earlier refresh,
  whose callback would use that refresh's map, is not told apart.
- `TaskView.PageOfFilter` reads a truthy page entry that is not a number as 1.
  In the source such a value would become `pages.current` as it is.
- Rows are addressed by their index in the list. Aliasing between a task
  object and other references to it is not modelled.
- `activityInstanceIdIn` is set to `undefined` when the filter has no
  `activityInstanceIds`. This is modelled as the key being absent, since an
  undefined entry is not sent.
- The task loop stops at the first falsy element of the response. Tasks are
  objects, so this is modelled as the whole list.
- `angular.copy` and `angular.extend` on `$$hashKey` and other view-only
  properties are left out.
- Persistence of subscriptions is a list with an id counter. Flushing,
  transactions and rollback on an exception are left out. An error leaves the
  list as it was at the throw.
- `MessageEventSubscriptionEntity` and `SignalEventSubscriptionEntity` are
  recorded as their event type only.
- The entity constructor's own default activity is kept as the value
  `ConstructorDefault`. The entity classes are not part of this model.
- `EventSubscriptions.EventSubscriptionDeclaration.HandleSequentialMultiInstanceLeave`
  iterates the list as it was on entry. A live iterator over the list it
  changes, and a `ConcurrentModificationException`, are not modelled.
- Java serialization, the getters and `isAsync` are left out.
- The task resource's route table (`taskResource.js`) is not modelled. Only
  the set of fields that have a set action is kept, which for that file is the
  assignee only.
