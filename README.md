# Serverless task manager, modelled in Dafny

A small task-management application. The backend consists of five AWS Lambda
handlers behind an HTTP API: create, list, get, update and delete tasks. They
share three pieces:

- a `Task` entity with Joi schemas for creating and updating a task;
- a DynamoDB repository whose writes are all conditional on the task id;
- a response envelope that wraps data or errors into `{success, data}` or
  `{success, error: {message, details}}`.

The React frontend keeps the task list in a reducer-based context, which also
derives a filtered list and counts by status and priority. It talks to the
API through a task service that guards its arguments. It offers quick status
transitions on the detail page, and it validates the create and edit forms
before it sends a payload.

The model is organised as follows, one module per source file:

- `TaskModel` (`task_model.dfy`) covers the schemas, validation (every
  violation collected), the storage conversion and the in-place `update`. The
  entity is a class whose fields `update` reassigns.
- `DynamoDb` (`dynamodb.dfy`) holds the repository class. The table is a
  `map` field, together with the index order the user query reads newest
  first. The module also builds the update expression and the filter
  expression.
- `CreateTaskHandler`, `UpdateTaskHandler`, `GetTaskHandler`,
  `DeleteTaskHandler` and `GetTasksHandler` are the five handlers. Each is a
  method over the repository. `Lambda` holds the event parts they share.
- `Responses` (`response.dfy`) is the envelope.
- `TaskContext` covers the reducer, the filtered list and the counts.
- `TaskService` covers the HTTP client calls and their guards. The client is
  a class that records the requests it sends.
- `TaskDetail` holds the colour helpers and the quick-action table.
- `TaskForm` holds the form state shared by both form pages, its validation
  and its payload. `CreateTaskPage` and `EditTaskPage` hold the two submit
  flows and the edit page's form population.
- `Wrappers`, `Text`, `Js`, `Seqs` and `SystemClock` are helper modules:
  - `Text` holds the JavaScript string operations, with `trim` over the
    ECMAScript white-space set and lengths in UTF-16 code units.
  - `Js` holds JavaScript values and objects as ordered property lists.
  - `SystemClock` is a monotone clock.

Inputs the code does not compute itself are parameters of the model:

- the uuid;
- the clock readings;
- `JSON.parse`;
- Joi's ISO-date parsing, and whether unknown keys pass;
- an error the table service raises on its own;
- the server's reply to a client request;
- the URL encoding.

## Model

| member | source | states |
|---|---|---|
| Responses.Success | backend/src/utils/response.js:10-18 | success flag with exactly the data; status 200 unless another is given |
| Responses.Error | backend/src/utils/response.js:20-35 | failure with the message and details; status 400 unless another is given |
| Responses.ValidationError | backend/src/utils/response.js:37-45 | 400 "Validation failed", one detail per input error in the same order, each with the field, message and value of its error |
| Responses.FieldNamesPath | backend/src/utils/response.js:39 | a detail's field is the path joined with "."; splitting it on "." gives the path back when no segment contains a dot |
| Responses.NotFound | backend/src/utils/response.js:47-49 | 404, no details, message is the resource (default "Resource") followed by " not found" |
| Responses.InternalError | backend/src/utils/response.js:51-53 | 500, no details, the message or "Internal server error" |
| Responses.Created | backend/src/utils/response.js:55-57 | is `success` with 201 and carries the data |
| Responses.NoContent | backend/src/utils/response.js:59-62 | 204 and no body |
| TaskModel.Validate | backend/src/models/Task.js:74-82 | a success is an object body's normalised value; a failure lists at least one violation; a non-object fails with a single `object.base` violation |
| TaskModel.ValidateCreate | backend/src/models/Task.js:20-32 | a validated create body has a string title and a status and a priority, defaulted where missing |
| TaskModel.ValidateUpdate | backend/src/models/Task.js:37-49 | a validated update adds no status or priority default, and with unknown keys refused carries neither `id` nor `userId` |
| TaskModel.ValidationCollectsAll | backend/src/models/Task.js:74-82 | with abortEarly false, a schema key is reported exactly when its rule rejects its value, and an unknown key exactly when unknown keys are refused |
| TaskModel.SucceedsIff | backend/src/models/Task.js:74-82 | validation succeeds exactly when no schema rule rejects and no refused unknown key is present |
| TaskModel.FailureHasCause | backend/src/models/Task.js:74-82 | every failure comes from a rejected schema key or a refused unknown key |
| TaskModel.TitleRule | backend/src/models/Task.js:22 | title is reported exactly unless it is a string that is non-blank and at most 255 code units after trim; required on create, optional on update (line 39) |
| TaskModel.DescriptionRule | backend/src/models/Task.js:23 | description is reported exactly unless absent or a string of at most 1000 code units after trim, "" allowed; the same on update (line 40) |
| TaskModel.EnumRules | backend/src/models/Task.js:24-29 | status and priority are reported exactly when present and outside their four values |
| TaskModel.DueDateRule | backend/src/models/Task.js:30 | dueDate is reported exactly when it is neither null nor an ISO date |
| TaskModel.EnumDetails | backend/src/models/Task.js:24-29 | the details at status and at priority are exactly: none for an allowed value; otherwise `any.only`, followed by `string.base` for a non-string or by `string.empty` for the empty string |
| TaskModel.DueDateDetails | backend/src/models/Task.js:30 | the details at dueDate are exactly: none for null or an ISO date; otherwise `date.format` for a string and `date.base` for anything else |
| TaskModel.ErrorsKindsAt | backend/src/models/Task.js:20-32 | the detail types reported at a schema key are exactly those of that key's own rule, in order, whatever the other keys hold |
| TaskModel.UserIdRule | backend/src/models/Task.js:31 | userId is checked on create; on update it is an unknown key |
| TaskModel.ValidatedValue | backend/src/models/Task.js:20-49 | a validated value has title and description trimmed, status and priority as given or, on create only, defaulted to pending and medium, the date converted, the user id untouched |
| TaskModel.OutputKeys | backend/src/models/Task.js:74-82 | with unknown keys refused, the validated value has schema keys only and never an `id` |
| TaskModel.UpdateWithoutSchemaFields | backend/src/models/Task.js:37-49 | a body without any update-schema key validates to an empty value (or to itself when unknown keys pass) |
| TaskModel.Construct | backend/src/models/Task.js:6-16 | the id as given; userId, status and priority never falsy; a timestamp in the data wins over the clock's, which is used only for a falsy one |
| TaskModel.ConstructDefaults | backend/src/models/Task.js:6-16 | a falsy userId, status or priority becomes default-user, pending or medium; a truthy one is kept |
| TaskModel.ToItem | backend/src/models/Task.js:53-65 | the item has exactly the nine attributes |
| TaskModel.ItemRoundTrip | backend/src/models/Task.js:53-70 | fromDynamoItem(toDynamoItem(t)) has t's nine fields when the defaulted fields and timestamps are truthy |
| TaskModel.Task.constructor | backend/src/models/Task.js:6-16 | fields are the data's with defaults; the clock is read only for missing timestamps, and createdAt is not after updatedAt |
| TaskModel.Task.ToDynamoItem | backend/src/models/Task.js:53-65 | the nine attributes; reading the item back gives the task again, without a clock, when no defaulted attribute is falsy |
| TaskModel.Task.FromDynamoItem | backend/src/models/Task.js:68-70 | a fresh task over the item's attributes |
| TaskModel.Task.Update | backend/src/models/Task.js:86-103 | only title, description, status, priority and dueDate take the update's values; id, userId and createdAt are unchanged; updatedAt is a new reading |
| DynamoDb.DynamoDBUtil.Create | backend/src/utils/dynamodb.js:29-45 | succeeds exactly for a new non-empty string id, then stores the item as the document client writes it, appends the id to the index order and returns the item as given; a present id fails with "Item with this ID already exists"; a missing or empty id fails with a ValidationException; every failure leaves table and order unchanged; other errors are rethrown |
| DynamoDb.DynamoDBUtil.GetById | backend/src/utils/dynamodb.js:47-59 | the stored item or none; the table is unchanged; errors are rethrown |
| DynamoDb.DynamoDBUtil.GetByUserId | backend/src/utils/dynamodb.js:61-90 | as written: with no status filter, the user's items that pass the priority filter, newest first; with a truthy status filter, the ValidationException for the reserved word `status`; a service error is rethrown; table and order are unchanged |
| DynamoDb.BuildQuery | backend/src/utils/dynamodb.js:61-82 | the index, the key condition and descending order; a status or priority placeholder exactly when that filter is truthy; no attribute-name aliases; the conjuncts match exactly the wanted items; the service refuses the query exactly when the status filter is truthy |
| DynamoDb.AliasedQuery | backend/src/utils/dynamodb.js:61-82 | the corrected query: the same conjuncts with `status` written as `#status`, declared only when used; never refused; matches exactly the wanted items |
| DynamoDb.RefusedExactly | backend/src/utils/dynamodb.js:71-74 | a query with these conjuncts is refused exactly when the status filter is truthy and the status attribute is written as the reserved word |
| DynamoDb.QueryResult | backend/src/utils/dynamodb.js:84-86 | the query's items are stored items that match it, no more of them than there are ids |
| DynamoDb.QueryOutcome | backend/src/utils/dynamodb.js:84-89 | the service answers with items exactly when there is no fault and no reserved word in the filter; a reserved word gives a ValidationException; every item returned matches the query |
| DynamoDb.AliasedListing | backend/src/utils/dynamodb.js:61-89 | the corrected query is answered with exactly the listing of wanted items, newest first, whatever the filters |
| DynamoDb.FilterExpressions | backend/src/utils/dynamodb.js:71-82 | the filter expression is absent, "status = :status", "priority = :priority" or "status = :status AND priority = :priority" |
| DynamoDb.QuerySelects | backend/src/utils/dynamodb.js:61-82 | the key condition and filter conjuncts select an item exactly when its userId matches and each truthy filter matches |
| DynamoDb.Listing | backend/src/utils/dynamodb.js:84-86 | every listed item is wanted, and the listing is no longer than the index |
| DynamoDb.QueryIsListing | backend/src/utils/dynamodb.js:84-86 | the query's result over the index equals the listing of wanted items |
| DynamoDb.ListingComplete | backend/src/utils/dynamodb.js:84-86 | every wanted stored item is listed |
| DynamoDb.BuildUpdate | backend/src/utils/dynamodb.js:92-114 | "SET " followed by `#attrI = :valI` per key, joined by ", " in key order; `#attrI` names key I and `:valI` holds its value |
| DynamoDb.AttrNameInjective | backend/src/utils/dynamodb.js:98-99 | distinct indices give distinct placeholders |
| DynamoDb.UpdateApplies | backend/src/utils/dynamodb.js:97-117 | applying assignments that resolve every key of the update to its value in a target map over exactly those keys merges that target into the item |
| DynamoDb.UpdateRequest | backend/src/utils/dynamodb.js:97-112 | one clause per key; the request assigns `id` exactly when the update has an `id` key |
| DynamoDb.StoredResolves | backend/src/utils/dynamodb.js:97-111 | placeholders still resolve once the document client has written their values |
| DynamoDb.UpdateKeepsKey | backend/src/utils/dynamodb.js:106-118 | without an `id` key the stored item is the old one merged with the update's values as written by the client, and keeps its id |
| DynamoDb.Rethrown | backend/src/utils/dynamodb.js:39-44 | a failed condition becomes the repository's own message with no code; any other error is rethrown unchanged; no result carries the condition-failure code |
| DynamoDb.UpdateOutcome | backend/src/utils/dynamodb.js:116-124 | the service succeeds exactly without a fault, with a non-empty SET, no assignment to `id` and a present id; a missing item surfaces as "Item not found", never as the raw condition failure |
| DynamoDb.UpdateOutcomeSpec | backend/src/utils/dynamodb.js:106-124 | the service's answer to the built request, stated in terms of the update object |
| DynamoDb.SendUpdate | backend/src/utils/dynamodb.js:92-124 | succeeds exactly for a present id and a non-empty update without `id`, returning the old item merged with the update's values as the client writes them; an absent id gives "Item not found"; other errors are rethrown |
| DynamoDb.DynamoDBUtil.Update | backend/src/utils/dynamodb.js:92-125 | on success the stored item is the old one merged with the update's values as the client writes them, and is returned; on failure the table is unchanged; the order never changes |
| DynamoDb.Stored | backend/src/utils/dynamodb.js:37 | the table keeps the item's attributes, each as the document client writes it: a `Date` becomes `{}` |
| DynamoDb.MarshalJson | backend/src/utils/dynamodb.js:37 | a value whose dates are already ISO text is written unchanged |
| DynamoDb.JsonIdempotent | backend/src/utils/dynamodb.js:37 | turning dates into ISO text twice is doing it once |
| DynamoDb.WrittenReadsBack | backend/src/utils/dynamodb.js:29-59 | the corrected write: with dates turned into ISO text before the put, the table stores the item unchanged and a read returns what the create answered |
| DynamoDb.CreateThenGet | backend/src/utils/dynamodb.js:29-59 | as written: after a successful create, a get returns the item as the client wrote it, so a due date that the create's reply shows as ISO text comes back as `{}` |
| DynamoDb.DynamoDBUtil.Delete | backend/src/utils/dynamodb.js:127-144 | a present id is removed and its old item returned; an absent id gives "Item not found"; other errors are rethrown |
| Lambda.BodyText | backend/src/handlers/createTask.js:18 | the text handed to JSON.parse is never empty: the body when present and non-empty, else "{}" |
| Lambda.TaskId | backend/src/handlers/updateTask.js:20-24 | the path id exactly when it is present and non-empty |
| Lambda.Rejection | backend/src/handlers/createTask.js:20 | a handler's own message is a 400 "Validation failed" with a single `unknown` detail |
| Lambda.Details | backend/src/handlers/createTask.js:24-27 | one detail input per violation, each with its path |
| CreateTaskHandler.Admit | backend/src/handlers/createTask.js:15-27 | bad JSON or a validation failure gives 400; a validation failure reports one detail per violation; a success is the validated body, which has a string title |
| CreateTaskHandler.TaskData | backend/src/handlers/createTask.js:30-35 | the validated fields over the fresh id (which a body `id` would override), then both timestamps |
| CreateTaskHandler.Build | backend/src/handlers/createTask.js:30-37 | two ordered clock readings, and the item of the task built over the fresh id, the validated fields and those timestamps |
| CreateTaskHandler.NewItem | backend/src/handlers/createTask.js:37-40 | the nine attributes, the fresh id when the body has none, both readings, and userId, status and priority never falsy |
| CreateTaskHandler.CreateFailure | backend/src/handlers/createTask.js:45-53 | a duplicate id gives 400 "Validation failed" whose single `unknown` detail reads "Task with this ID already exists"; anything else gives 500 "Failed to create task" |
| CreateTaskHandler.Save | backend/src/handlers/createTask.js:40-53 | 201 with the item exactly when the store accepts it, which stores it as the client writes it and appends its id to the order; a duplicate gives 400 "Validation failed" whose single `unknown` detail reads "Task with this ID already exists"; a missing or empty id and any other error give 500 "Failed to create task"; otherwise table and order are unchanged |
| CreateTaskHandler.Handle | backend/src/handlers/createTask.js:11-54 | bad JSON or a validation failure gives 400 with no store call, no clock read and table and order unchanged; otherwise exactly one create of the built item, with timestamps from two ordered readings: 201 stores it and appends its id, a duplicate gives 400 "Validation failed" whose single `unknown` detail reads "Task with this ID already exists", anything else 500 with table and order unchanged |
| CreateTaskHandler.NewItemFields | backend/src/handlers/createTask.js:30-37 | the stored task has the fresh id, the trimmed title, status and priority defaulted and enumerated, the user id defaulted, and both readings |
| CreateTaskHandler.CreatedValue | backend/src/handlers/createTask.js:24-32 | the validated create body has no `id` when unknown keys are refused, so the uuid stands |
| CreateTaskHandler.AbsentBodyRejected | backend/src/handlers/createTask.js:18 | a missing body is parsed as `{}` and rejected with a detail for title |
| UpdateTaskHandler.Admit | backend/src/handlers/updateTask.js:19-45 | a missing id, bad JSON, a validation failure or no fields give 400; a success carries the path id and a non-empty validated update, which with unknown keys refused has neither `id` nor `userId` |
| UpdateTaskHandler.UpdateData | backend/src/handlers/updateTask.js:50-53 | the validated changes followed by `updatedAt`, which wins as a key |
| UpdateTaskHandler.UpdateFailure | backend/src/handlers/updateTask.js:61-69 | "Item not found" gives 404 Task not found; anything else gives 500 "Failed to update task" |
| UpdateTaskHandler.Handle | backend/src/handlers/updateTask.js:15-70 | a missing id, bad JSON, a validation failure or an empty change set gives 400 with no store call; otherwise exactly one update carrying a new updatedAt: 200 with the old item merged with the changes as the client writes them (a due date comes back as `{}`), 404 for an absent id, 500 otherwise; the order never changes |
| UpdateTaskHandler.ChangesSent | backend/src/handlers/updateTask.js:50-56 | the repository receives schema fields and the new updatedAt only, never `id` |
| UpdateTaskHandler.NoFieldsRejected | backend/src/handlers/updateTask.js:41-45 | a body without schema fields never reaches the store, whatever the table holds |
| GetTaskHandler.Found | backend/src/handlers/getTask.js:28-41 | a found item gives 200, none gives 404, an error gives 500 "Failed to fetch task" |
| GetTaskHandler.Handle | backend/src/handlers/getTask.js:14-42 | a missing id gives 400 and no lookup; the table is never changed |
| DeleteTaskHandler.DeleteFailure | backend/src/handlers/deleteTask.js:37-45 | "Item not found" gives 404; anything else gives 500 "Failed to delete task" |
| DeleteTaskHandler.Handle | backend/src/handlers/deleteTask.js:14-46 | a missing id gives 400 and no delete; 200 with the message and the pre-delete item exactly when the id was stored, which removes it from table and order; otherwise 404 or 500 with table and order unchanged |
| DeleteTaskHandler.DeleteThenGet | backend/src/handlers/deleteTask.js:28-36 | after a successful delete, a get of the same id answers 404 |
| GetTasksHandler.UserOf | backend/src/handlers/getTasks.js:14-15 | userId is the query's when truthy, else default-user |
| GetTasksHandler.FiltersOf | backend/src/handlers/getTasks.js:19-22 | status and priority are in the filter only when truthy |
| GetTasksHandler.ListingOf | backend/src/handlers/getTasks.js:32-40 | count equals the number of tasks; filters echo the effective userId and the raw status and priority |
| GetTasksHandler.Handle | backend/src/handlers/getTasks.js:9-47 | as written: without a status parameter, 200 with the listing of the user's tasks passing the priority filter; with one, or on a service error, 500 "Failed to fetch tasks"; the table is never changed |
| GetTasksHandler.ListedExactly | backend/src/handlers/getTasks.js:14-27 | every listed task has the user and the given non-empty status and priority; every such stored task is listed; the corrected query returns exactly that listing |
| TaskContext.Replace | frontend/src/context/TaskContext.js:46-54 | same length; exactly the tasks with the payload's id are replaced |
| TaskContext.Remove | frontend/src/context/TaskContext.js:56-62 | an ordered subsequence holding no task with the id and every task without it, each with as many copies as before |
| TaskContext.RemoveKeepsCopies | frontend/src/context/TaskContext.js:56-62 | removing an id keeps the number of copies of every task with another id |
| TaskContext.Reduce | frontend/src/context/TaskContext.js:28-95 | each action's new state: SET_TASKS resets loading and error, ADD_TASK prepends, UPDATE_TASK replaces by id, DELETE_TASK is Remove of the id, SET_LOADING and SET_ERROR set their field, SET_FILTERS overrides only the payload keys, CLEAR_ERROR clears the error, unknown actions change nothing |
| TaskContext.SpreadOverrides | frontend/src/context/TaskContext.js:77-84 | the filter spread takes the payload's keys and keeps the rest |
| TaskContext.AddThenDelete | frontend/src/context/TaskContext.js:38-62 | adding a task with a new id and then deleting that id restores the list |
| TaskContext.ReplaceSame | frontend/src/context/TaskContext.js:46-54 | updating with a task already listed under its id changes nothing |
| TaskContext.Filtered | frontend/src/context/TaskContext.js:142-150 | the shown tasks are exactly the listed tasks that match the status, priority and search filters |
| TaskContext.FilteredKeepsOrder | frontend/src/context/TaskContext.js:142-150 | the filtered list is a subsequence of the list |
| TaskContext.FilteredWithoutFilters | frontend/src/context/TaskContext.js:142-150 | with all filters empty, every task is shown |
| TaskContext.MatchesAsWritten | frontend/src/context/TaskContext.js:142-150 | the callback as written raises only a TypeError; it never raises for a task with a string title and description and an empty or string search; a truthy search on a task without a string title raises |
| TaskContext.FilteredAsWritten | frontend/src/context/TaskContext.js:142-150 | the list as written fails only with a TypeError, always renders when every task has a string title and description, and is never longer than the list |
| TaskContext.MatchesAgree | frontend/src/context/TaskContext.js:142-150 | where the callback as written does not throw, it decides as the intended filter |
| TaskContext.FilteredAgrees | frontend/src/context/TaskContext.js:142-150 | where the list as written renders, it equals the intended filtered list |
| TaskContext.MissingDescriptionThrows | frontend/src/context/TaskContext.js:145-147 | a task without a description, searched for a word not in its title, makes the list as written throw |
| TaskContext.TaskCounts | frontend/src/context/TaskContext.js:153-159 | the total is the list length, and the four status counts add up to at most the total |
| TaskContext.CountPriorities | frontend/src/context/TaskContext.js:162-167 | the four priority counts add up to at most the list length |
| TaskContext.FourWayCount | frontend/src/context/TaskContext.js:153-167 | four distinct values of a field count each task at most once, and every task when each holds one of them |
| TaskContext.StatusCountsSum | frontend/src/context/TaskContext.js:153-159 | the four status counts add up to the total when every status is one of the four |
| TaskContext.PriorityCountsSum | frontend/src/context/TaskContext.js:162-167 | the four priority counts add up to the list length when every priority is one of the four |
| TaskService.BuildParams | frontend/src/services/taskService.js:13-24 | keeps exactly the entries that are not undefined, null or "", in iteration order |
| TaskService.Query | frontend/src/services/taskService.js:13-24 | the query string is empty exactly when no parameter was kept |
| TaskService.TasksUrl | frontend/src/services/taskService.js:40-43 | the bare base path for an empty query, else base, "?" and the query |
| TaskService.BarePathWithoutFilters | frontend/src/services/taskService.js:38-50 | the bare path is requested exactly when no filter value is kept |
| TaskService.CheckId | frontend/src/services/taskService.js:55-59 | throws exactly for a falsy id, with the operation named |
| TaskService.TitleOf | frontend/src/services/taskService.js:65 | anything but an object has no title; a title only comes from an object holding that key |
| TaskService.CheckTaskData | frontend/src/services/taskService.js:64-68 | passes exactly for a string title that is non-blank after trim; a missing, null or empty title throws "Task title is required" |
| TaskService.Outcome | frontend/src/services/taskService.js:29-33 | the reply's data, or its error rethrown unchanged |
| TaskService.Api.Send | frontend/src/services/taskService.js:38-148 | records the request and returns the reply |
| TaskService.GetTasks | frontend/src/services/taskService.js:38-50 | one GET of the URL built from the kept filters |
| TaskService.TaskUrl | frontend/src/services/taskService.js:76 | the base path, a slash, then the id as text |
| TaskService.GetTask | frontend/src/services/taskService.js:73-81 | a falsy id throws with no request; otherwise one GET of the task URL |
| TaskService.CreateTask | frontend/src/services/taskService.js:86-94 | invalid data throws with no request; otherwise one POST of the data |
| TaskService.UpdateTask | frontend/src/services/taskService.js:99-107 | a falsy id throws with no request; otherwise one PUT of the updates |
| TaskService.DeleteTask | frontend/src/services/taskService.js:112-120 | a falsy id throws with no request; otherwise one DELETE |
| TaskService.UpdateTaskStatus | frontend/src/services/taskService.js:125-127 | is updateTask with `{status}` |
| TaskService.UpdateTaskPriority | frontend/src/services/taskService.js:132-134 | is updateTask with `{priority}` |
| TaskService.CompleteTask | frontend/src/services/taskService.js:139-141 | is updateTask with status "completed" |
| TaskService.StartTask | frontend/src/services/taskService.js:146-148 | is updateTask with status "in-progress" |
| TaskDetail.StatusColor | frontend/src/pages/TaskDetail.js:101-112 | completed→success, in-progress→info, cancelled→error, anything else→warning |
| TaskDetail.PriorityColor | frontend/src/pages/TaskDetail.js:114-125 | urgent→error, high→warning, medium→info, anything else→default |
| TaskDetail.Offered | frontend/src/pages/TaskDetail.js:136-175 | pending offers in-progress; in-progress offers completed then pending; completed offers in-progress; others offer none; no action targets the current status; each colour is its target's |
| TaskDetail.QuickActions | frontend/src/pages/TaskDetail.js:136-175 | no task gives no actions; otherwise the table's actions for its status |
| TaskDetail.QuickMovesUndoable | frontend/src/pages/TaskDetail.js:136-175 | every quick move can be undone by a quick move back |
| TaskForm.Set | frontend/src/pages/CreateTask.js:42-50 | only the edited field changes |
| TaskForm.Problems | frontend/src/pages/CreateTask.js:59-74 | a blank title gives "Title is required"; otherwise an untrimmed length over 255 gives the length error; a description over 1000 gives its error; no other keys |
| TaskForm.Form.constructor | frontend/src/pages/CreateTask.js:31-37 | empty title and description, pending, medium, no date, no errors |
| TaskForm.Form.Change | frontend/src/pages/EditTask.js:78-86 | sets only the field; a truthy error on it becomes "" rather than being removed |
| TaskForm.Form.ChangeDate | frontend/src/pages/EditTask.js:88-93 | sets only the date; a truthy date error becomes "" |
| TaskForm.Form.Validate | frontend/src/pages/CreateTask.js:59-74 | the errors are exactly the form's problems, and the result is true exactly when there are none |
| TaskForm.PaddedTitleRefused | frontend/src/pages/CreateTask.js:64-66 | a title of "a" and 255 spaces is refused by the form although the backend accepts its trimmed form |
| TaskForm.ValidFormSendable | frontend/src/pages/CreateTask.js:87-93 | a form without problems yields a payload the service guard accepts, with a title and description the backend schema accepts |
| TaskForm.DateText | frontend/src/pages/CreateTask.js:92 | no date gives null; a date gives its ISO text; an Invalid Date throws a RangeError |
| TaskForm.Payload | frontend/src/pages/CreateTask.js:87-93 | the five-field body, failing with a RangeError exactly when the due date is an Invalid Date |
| TaskForm.Body | frontend/src/pages/CreateTask.js:87-93 | an object of five properties |
| TaskForm.BodyFields | frontend/src/pages/CreateTask.js:87-93 | the body reads back the trimmed title and description, status, priority and the due date's text |
| TaskForm.PayloadFields | frontend/src/pages/CreateTask.js:87-93 | a payload that builds has the trimmed title and description, status, priority, and the date or null |
| CreateTaskPage.Submit | frontend/src/pages/CreateTask.js:76-106 | the errors become the form's problems; an invalid form sends nothing and answers nothing; a valid form with an Invalid Date throws a RangeError and sends nothing; otherwise exactly one POST of the payload, answered with the reply's data or its error |
| EditTaskPage.TextOr | frontend/src/pages/EditTask.js:62-68 | a non-empty string, else the fallback |
| EditTaskPage.Populate | frontend/src/pages/EditTask.js:62-68 | fallbacks "", "", pending and medium; no date exactly for a falsy due date; an Invalid Date exactly when parseISO cannot read a truthy one; otherwise the parsed date |
| EditTaskPage.Load | frontend/src/pages/EditTask.js:53-76 | the form holds the populated task; errors are untouched |
| EditTaskPage.ReloadSaved | frontend/src/pages/EditTask.js:62-68 | loading a sent payload back gives the form that was saved, when its texts are trimmed and its date parses to itself |
| EditTaskPage.ReloadFields | frontend/src/pages/EditTask.js:62-68 | a task holding the form's fields as a submit writes them loads as that form |
| EditTaskPage.StoredDateUnreadable | frontend/src/pages/EditTask.js:67 | a due date stored as `{}` loads as an Invalid Date, whose payload throws a RangeError |
| EditTaskPage.Save | frontend/src/pages/EditTask.js:131 | an empty id throws with no request; otherwise one PUT of the update data |
| EditTaskPage.Submit | frontend/src/pages/EditTask.js:112-142 | the errors become the form's problems; an invalid form sends nothing; a valid form with an Invalid Date throws a RangeError and sends nothing; an empty id throws before any request; otherwise the full five-field payload in one PUT, answered with the reply's data or its error |

## Left out

- `getAll` in `dynamodb.js` is not part of this model: no handler calls it, and its result depends on scan paging.
- The SDK client wiring, region and endpoint selection, and environment reads are left out. The table is a map, and each conditional write is atomic.
- `JSON.parse` is a function parameter (`Lambda.Parser`). `JSON.stringify`, logging, the CORS headers and the timestamps in response envelopes are left out.
- Concurrency is left out. Requests run one at a time against the table.
- `uuidv4()` is an input of `CreateTaskHandler.Handle`, and a collision is handled rather than excluded. `new Date()` is a monotone clock. Instants stand for their ISO strings.
- Joi's ISO-8601 date parsing is a parameter (`JoiConfig.parseIsoDate`). So is the treatment of keys outside the schema (`JoiConfig.allowUnknown`). With unknown keys allowed, a body `id` would override the uuid on create and would make update send `id`. The store then refuses it, and the handler answers 500.
- Joi's messages are modelled as their text templates. The order of its details is schema order, then unknown keys.
- The client's URL encoding and `String(value)` are a parameter (`TaskService.Codec`). The server's reply is an input. `response.data.data` is taken as the reply itself.
- TaskService.Outcome: the console logging of `handleError` is left out; only the rethrow is modelled.
- TaskContext.Filtered: lower-casing covers ASCII letters only.
- `MatchesAsWritten` throws a `TypeError` for a title that is not a string, and so does the description. The intended filter treats such a field as not matching.
- EditTaskPage.Populate: a title or description that is not a string falls back to `""` rather than being kept as it is.
- The React rendering is left out, along with navigation, snackbars and the `setLoading`/`setError` dispatches around the service calls. So are the `addTask`/`updateTask` dispatches after a submit.
- `handleStatusChange` in `TaskDetail.js` is not part of this model. It is `updateTaskStatus` followed by a dispatch. `TaskList.js` is not part of this model either, and its colour helpers are the same as `TaskDetail.StatusColor` and `TaskDetail.PriorityColor`.
- The `validateForm` of `EditTask.js:95-110` is the same as that of `CreateTask.js:59-74`. Both are modelled once as `TaskForm.Form.Validate`.
- The form's 255 check measures the untrimmed title, while the backend measures the trimmed one. `TaskForm.PaddedTitleRefused` states the mismatch. The form is modelled as written.
- ListedExactly: holds for a listing that fits in one page only. `DynamoDb.DynamoDBUtil.GetByUserId` reads a single page of the query (at most 1 MB) and ignores `LastEvaluatedKey`, so a larger result is silently truncated. The model answers with the whole result.
- The key schema of `UserIdIndex` is not part of the sources. The model assumes that it has no sort key, and that "newest first" is the reverse of the order in which ids were created (`DynamoDBUtil.order`).
- `DynamoDb.ReservedWords` holds only `status`. Of the attribute names this code writes into an expression, it is the only reserved word. DynamoDB's full list of reserved words is left out.
- `DynamoDb.Marshal`: the document client's omission of attributes whose value is `undefined`, and its `convertEmptyValues` option, are left out. Only the treatment of a `Date` is modelled.
- date-fns `parseISO` is a parameter of `EditTaskPage.Populate` and `EditTaskPage.Load`. `None` stands for the Invalid Date it returns for a value it cannot read.

## Findings

| source | as written | input that shows it | evidently intended | confidence | as-written member | corrected member |
|---|---|---|---|---|---|---|
| frontend/src/context/TaskContext.js:145-147 | when a search is set and the title does not match, the callback lower-cases `task.description`, which throws for a task created without a description (the backend stores none when the body omits it) | tasks `[{id "1", title "Milk", status pending, priority medium}]` with filters status "", priority "", search "bread" | a task without a description is matched on its title alone, and the list renders | not executed | TaskContext.MissingDescriptionThrows | TaskContext.FilteredAgrees |
| backend/src/utils/dynamodb.js:71-74 | a truthy status filter is written `status = :status`, with the reserved word `status` as an attribute name and no `ExpressionAttributeNames`, so DynamoDB refuses the query with a ValidationException and `GET /tasks?status=…` always answers 500 | `GET /tasks?status=pending` for any user | alias the attribute as `#status`, declared in `ExpressionAttributeNames` | not executed | DynamoDb.DynamoDBUtil.GetByUserId | DynamoDb.AliasedListing |
| backend/src/utils/dynamodb.js:29-38 | Joi's `date().iso()` turns a `dueDate` into a `Date`, which `createTask.js:30-40` passes to the document client unchanged; the client writes it as the empty map `{}`, so the 201 reply shows the date while every later read returns `{}` | `POST /tasks` with body `{"title": "Pay rent", "dueDate": "2024-01-01T00:00:00.000Z"}`, then `GET /tasks/{id}` | store the date as its ISO text | not executed | DynamoDb.CreateThenGet | DynamoDb.WrittenReadsBack |
