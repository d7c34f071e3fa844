/**
 * The client's task service: every operation is at most one HTTP request,
 * sent only after its argument guard passes, and a failure, whether raised
 * by a guard or by the request, reaches the caller unchanged.
 */
module TaskService {
  import opened Wrappers
  import opened Text
  import opened Js
  import opened Seqs

  const BasePath: string := "/tasks"

  datatype Verb = GET | POST | PUT | DELETE

  datatype Request = Request(verb: Verb, url: string, body: Option<Value>)

  /**
   * What an operation throws: a guard's own `Error`, the request's failure
   * as raised, or an error the language itself raises, by its name.
   */
  datatype Thrown = Guard(message: string) | Remote(error: Value) | Raised(name: string)

  /**
   * How values turn into URL text: `text` is `String(value)`, `encode` the
   * form encoding `URLSearchParams` applies to each name and value.
   */
  datatype Codec = Codec(text: Value -> string, encode: string -> string)

  /** The HTTP client; `sent` lists the requests made so far. */
  class Api {
    var sent: seq<Request>

    constructor ()
      ensures sent == []
    {
      sent := [];
    }

    /** One request; `reply` is the `data` of the server's answer, or the error the client raises. */
    method Send(req: Request, reply: Result<Value, Value>) returns (r: Result<Value, Value>)
      modifies this
      ensures sent == old(sent) + [req] && r == reply
    {
      sent := sent + [req];
      r := reply;
    }
  }

  /** An entry that the query keeps: not `undefined`, `null` or `""`. */
  predicate Kept(entry: Prop)
  {
    entry.val != Undefined && entry.val != Null && entry.val != Str("")
  }

  /** `#buildQueryString`'s loop over `Object.entries(filters)`: the entries it appends, in order. */
  method BuildParams(entries: seq<Prop>) returns (params: seq<Prop>)
    ensures params == Filter(entries, Kept)
    ensures IsSubsequence(params, entries)
    ensures forall i :: 0 <= i < |params| ==> Kept(params[i])
    ensures forall i :: 0 <= i < |entries| && Kept(entries[i]) ==> entries[i] in params
  {
    params := [];
    var i := 0;
    while i < |entries|
      invariant 0 <= i <= |entries|
      invariant params == Filter(entries[..i], Kept)
    {
      FilterSnoc(entries[..i], entries[i], Kept);
      assert entries[..i + 1] == entries[..i] + [entries[i]];
      if Kept(entries[i]) {
        params := params + [entries[i]];
      }
      i := i + 1;
    }
    assert entries[..i] == entries;
    FilterIsSubsequence(entries, Kept);
  }

  /** `name=value` for one parameter. */
  function Pair(p: Prop, codec: Codec): (r: string)
    ensures '=' in r
  {
    var r := codec.encode(p.key) + "=" + codec.encode(codec.text(p.val));
    assert r[|codec.encode(p.key)|] == '=';
    r
  }

  /**
   * `params.toString()`: `name=value` pairs joined by `&`; the string is
   * empty exactly when there is no parameter.
   */
  function Query(params: seq<Prop>, codec: Codec): (r: string)
    ensures r == "" <==> params == []
  {
    var parts := seq(|params|, i requires 0 <= i < |params| => Pair(params[i], codec));
    if parts == [] then Join(parts, "&")
    else
      assert parts[0] != "";
      if |parts| > 1 then
        assert Join(parts, "&") == parts[0] + "&" + Join(parts[1..], "&");
        Join(parts, "&")
      else Join(parts, "&")
  }

  /** The URL `getTasks` requests for a query string. */
  function TasksUrl(query: string): (url: string)
    ensures query == "" ==> url == BasePath
    ensures query != "" ==> |url| > |BasePath| + 1 && url[..|BasePath|] == BasePath && url[|BasePath|] == '?' && url[|BasePath| + 1..] == query
  {
    if query != "" then BasePath + "?" + query else BasePath
  }

  /** `getTasks` asks for the bare collection exactly when no filter is set to a kept value. */
  lemma BarePathWithoutFilters(entries: seq<Prop>, codec: Codec)
    ensures TasksUrl(Query(Filter(entries, Kept), codec)) == BasePath <==> forall i :: 0 <= i < |entries| ==> !Kept(entries[i])
  {
    var params := Filter(entries, Kept);
    if params != [] {
      assert |TasksUrl(Query(params, codec))| > |BasePath|;
    }
  }

  /** The error `#validateId` throws for an operation. */
  function MissingId(operation: string): Thrown
  {
    Guard("Task ID is required for " + operation)
  }

  /** `#validateId`: a falsy id throws before any request. */
  function CheckId(id: Value, operation: string): (r: Option<Thrown>)
    ensures r.Some? <==> Falsy(id)
    ensures r.Some? ==> r.value == MissingId(operation)
  {
    if Falsy(id) then Some(MissingId(operation)) else None
  }

  /** `taskData?.title`: the title of an object, `undefined` for anything else. */
  function TitleOf(taskData: Value): (r: Value)
    ensures !taskData.Obj? ==> r == Undefined
    ensures r != Undefined ==> taskData.Obj? && HasKey(taskData.props, "title")
  {
    if taskData.Obj? then Get(taskData.props, "title") else Undefined
  }

  /**
   * `#validateTaskData`: a title that is missing or blank once trimmed
   * throws "Task title is required"; a title that is not a string has no
   * `trim` and throws a `TypeError`.
   */
  function CheckTaskData(taskData: Value): (r: Option<Thrown>)
    ensures r.None? <==> TitleOf(taskData).Str? && Trim(TitleOf(taskData).s) != ""
    ensures (TitleOf(taskData) == Undefined || TitleOf(taskData) == Null || TitleOf(taskData) == Str("")) ==>
      r == Some(Guard("Task title is required"))
  {
    var title := TitleOf(taskData);
    if title == Undefined || title == Null then Some(Guard("Task title is required"))
    else if title.Str? then (if Trim(title.s) == "" then Some(Guard("Task title is required")) else None)
    else Some(Raised("TypeError"))
  }

  /** The URL of one task: the collection's path, a slash, and the id as text. */
  function TaskUrl(id: Value, codec: Codec): (url: string)
    ensures |url| > |BasePath| && url[..|BasePath|] == BasePath && url[|BasePath|] == '/'
    ensures url[|BasePath| + 1..] == codec.text(id)
  {
    BasePath + "/" + codec.text(id)
  }

  /** The value a guarded request resolves to, or what it throws. */
  function Outcome(reply: Result<Value, Value>): (r: Result<Value, Thrown>)
    ensures reply.Success? ==> r == Success(reply.value)
    ensures reply.Failure? ==> r == Failure(Remote(reply.error))
  {
    match reply
    case Success(v) => Success(v)
    case Failure(e) => Failure(Remote(e))
  }

  /** `getTasks(filters)`; `entries` is `Object.entries(filters)`. */
  method GetTasks(api: Api, entries: seq<Prop>, codec: Codec, reply: Result<Value, Value>) returns (r: Result<Value, Thrown>)
    modifies api
    ensures api.sent == old(api.sent) + [Request(GET, TasksUrl(Query(Filter(entries, Kept), codec)), None)]
    ensures r == Outcome(reply)
  {
    var params := BuildParams(entries);
    var query := Query(params, codec);
    var answer := api.Send(Request(GET, TasksUrl(query), None), reply);
    r := Outcome(answer);
  }

  /** `getTask(id)`. */
  method GetTask(api: Api, id: Value, codec: Codec, reply: Result<Value, Value>) returns (r: Result<Value, Thrown>)
    modifies api
    ensures Falsy(id) ==> api.sent == old(api.sent) && r == Failure(MissingId("fetching"))
    ensures !Falsy(id) ==> api.sent == old(api.sent) + [Request(GET, TaskUrl(id, codec), None)] && r == Outcome(reply)
  {
    var guard := CheckId(id, "fetching");
    if guard.Some? {
      return Failure(guard.value);
    }
    var answer := api.Send(Request(GET, TaskUrl(id, codec), None), reply);
    r := Outcome(answer);
  }

  /** `createTask(taskData)`. */
  method CreateTask(api: Api, taskData: Value, reply: Result<Value, Value>) returns (r: Result<Value, Thrown>)
    modifies api
    ensures CheckTaskData(taskData).Some? ==> api.sent == old(api.sent) && r == Failure(CheckTaskData(taskData).value)
    ensures CheckTaskData(taskData).None? ==> api.sent == old(api.sent) + [Request(POST, BasePath, Some(taskData))] && r == Outcome(reply)
  {
    var guard := CheckTaskData(taskData);
    if guard.Some? {
      return Failure(guard.value);
    }
    var answer := api.Send(Request(POST, BasePath, Some(taskData)), reply);
    r := Outcome(answer);
  }

  /** `updateTask(id, updates)`. */
  method UpdateTask(api: Api, id: Value, updates: Value, codec: Codec, reply: Result<Value, Value>) returns (r: Result<Value, Thrown>)
    modifies api
    ensures Falsy(id) ==> api.sent == old(api.sent) && r == Failure(MissingId("updating"))
    ensures !Falsy(id) ==> api.sent == old(api.sent) + [Request(PUT, TaskUrl(id, codec), Some(updates))] && r == Outcome(reply)
  {
    var guard := CheckId(id, "updating");
    if guard.Some? {
      return Failure(guard.value);
    }
    var answer := api.Send(Request(PUT, TaskUrl(id, codec), Some(updates)), reply);
    r := Outcome(answer);
  }

  /** `deleteTask(id)`. */
  method DeleteTask(api: Api, id: Value, codec: Codec, reply: Result<Value, Value>) returns (r: Result<Value, Thrown>)
    modifies api
    ensures Falsy(id) ==> api.sent == old(api.sent) && r == Failure(MissingId("deletion"))
    ensures !Falsy(id) ==> api.sent == old(api.sent) + [Request(DELETE, TaskUrl(id, codec), None)] && r == Outcome(reply)
  {
    var guard := CheckId(id, "deletion");
    if guard.Some? {
      return Failure(guard.value);
    }
    var answer := api.Send(Request(DELETE, TaskUrl(id, codec), None), reply);
    r := Outcome(answer);
  }

  /** `updateTaskStatus(id, status)`: `updateTask(id, {status})`. */
  method UpdateTaskStatus(api: Api, id: Value, status: Value, codec: Codec, reply: Result<Value, Value>) returns (r: Result<Value, Thrown>)
    modifies api
    ensures Falsy(id) ==> api.sent == old(api.sent) && r == Failure(MissingId("updating"))
    ensures !Falsy(id) ==> api.sent == old(api.sent) + [Request(PUT, TaskUrl(id, codec), Some(Obj([Prop("status", status)])))] && r == Outcome(reply)
  {
    r := UpdateTask(api, id, Obj([Prop("status", status)]), codec, reply);
  }

  /** `updateTaskPriority(id, priority)`: `updateTask(id, {priority})`. */
  method UpdateTaskPriority(api: Api, id: Value, priority: Value, codec: Codec, reply: Result<Value, Value>) returns (r: Result<Value, Thrown>)
    modifies api
    ensures Falsy(id) ==> api.sent == old(api.sent) && r == Failure(MissingId("updating"))
    ensures !Falsy(id) ==> api.sent == old(api.sent) + [Request(PUT, TaskUrl(id, codec), Some(Obj([Prop("priority", priority)])))] && r == Outcome(reply)
  {
    r := UpdateTask(api, id, Obj([Prop("priority", priority)]), codec, reply);
  }

  /** `completeTask(id)`: the status update to "completed". */
  method CompleteTask(api: Api, id: Value, codec: Codec, reply: Result<Value, Value>) returns (r: Result<Value, Thrown>)
    modifies api
    ensures Falsy(id) ==> api.sent == old(api.sent) && r == Failure(MissingId("updating"))
    ensures !Falsy(id) ==> api.sent == old(api.sent) + [Request(PUT, TaskUrl(id, codec), Some(Obj([Prop("status", Str("completed"))])))] && r == Outcome(reply)
  {
    r := UpdateTaskStatus(api, id, Str("completed"), codec, reply);
  }

  /** `startTask(id)`: the status update to "in-progress". */
  method StartTask(api: Api, id: Value, codec: Codec, reply: Result<Value, Value>) returns (r: Result<Value, Thrown>)
    modifies api
    ensures Falsy(id) ==> api.sent == old(api.sent) && r == Failure(MissingId("updating"))
    ensures !Falsy(id) ==> api.sent == old(api.sent) + [Request(PUT, TaskUrl(id, codec), Some(Obj([Prop("status", Str("in-progress"))])))] && r == Outcome(reply)
  {
    r := UpdateTaskStatus(api, id, Str("in-progress"), codec, reply);
  }
}
