/**
 * `POST /tasks`: parse the body, validate it against the create schema,
 * stamp a fresh id and two timestamps, build the task and put it under the
 * condition that its id is new.
 */
module CreateTaskHandler {
  import opened Wrappers
  import opened Text
  import opened Js
  import opened SystemClock
  import opened TaskModel
  import opened DynamoDb
  import opened Lambda
  import Responses

  type Reply = Responses.Response<Item>

  const DuplicateTask: string := "Task with this ID already exists"
  const CreateFailed: string := "Failed to create task"

  /** The request's first stage: the validated body, or the 400 response it ends with. */
  function Admit(e: Event, parse: Parser, cfg: JoiConfig): (r: Result<seq<Prop>, Reply>)
    ensures r.Failure? ==> r.error.statusCode == 400
    ensures parse(BodyText(e)).None? ==> r == Failure(Rejection(InvalidJson))
    ensures r.Success? <==> parse(BodyText(e)).Some? && ValidateCreate(cfg, parse(BodyText(e)).value).Success?
    ensures r.Success? ==> r.value == ValidateCreate(cfg, parse(BodyText(e)).value).value && Get(r.value, "title").Str?
    ensures r.Failure? && parse(BodyText(e)).Some? ==>
      && r.error.body.Some? && r.error.body.value.Err? && r.error.body.value.details.Some?
      && |r.error.body.value.details.value| == |ValidateCreate(cfg, parse(BodyText(e)).value).error|
  {
    match parse(BodyText(e))
    case None => Failure(Rejection(InvalidJson))
    case Some(body) =>
      match ValidateCreate(cfg, body)
      case Failure(vs) => Failure(Responses.ValidationError(Details(vs)))
      case Success(value) => Success(value)
  }

  /** `taskData`: the fresh id, then the validated fields spread over it, then both timestamps. */
  function TaskData(id: string, fields: Item, created: nat, updated: nat): (r: Item)
    ensures r.Keys == fields.Keys + {"id", "createdAt", "updatedAt"}
    ensures "id" !in fields ==> r["id"] == Str(id)
    ensures forall k :: k in fields && k != "createdAt" && k != "updatedAt" ==> r[k] == fields[k]
    ensures r["createdAt"] == Instant(created) && r["updatedAt"] == Instant(updated)
  {
    (map["id" := Str(id)] + fields)["createdAt" := Instant(created)]["updatedAt" := Instant(updated)]
  }

  /** `new Task(taskData)`; the timestamps are set, so the constructor reads no clock. */
  function NewTask(id: string, value: seq<Prop>, created: nat, updated: nat): (f: TaskFields)
    ensures !HasKey(value, "id") ==> f.id == Str(id)
    ensures f.createdAt == Instant(created) && f.updatedAt == Instant(updated)
  {
    var data := TaskData(id, ToMap(value), created, updated);
    assert !HasKey(value, "id") ==> "id" !in ToMap(value);
    assert Lookup(data, "createdAt") == Instant(created) && Lookup(data, "updatedAt") == Instant(updated);
    Construct(data, Undefined, Undefined)
  }

  /** `new Task(taskData).toDynamoItem()`. */
  function NewItem(id: string, value: seq<Prop>, created: nat, updated: nat): (r: Item)
    ensures r.Keys == {"id", "userId", "title", "description", "status", "priority", "dueDate", "createdAt", "updatedAt"}
    ensures !HasKey(value, "id") ==> r["id"] == Str(id)
    ensures r["createdAt"] == Instant(created) && r["updatedAt"] == Instant(updated)
    ensures !Falsy(r["userId"]) && !Falsy(r["status"]) && !Falsy(r["priority"])
  {
    var f := NewTask(id, value, created, updated);
    ToItemFields(f);
    ToItem(f)
  }

  /** What the `catch` block answers to a repository error. */
  function CreateFailure(err: Error): (r: Reply)
    ensures err.message == AlreadyExists ==> r == Rejection(DuplicateTask)
    ensures err.message != AlreadyExists ==> r.statusCode == 500 && Responses.Reports(r, CreateFailed, None)
  {
    if err.message == AlreadyExists then Rejection(DuplicateTask)
    else Responses.InternalError(Some(CreateFailed))
  }

  /**
   * The answer to a built item: `create`, then `created` or the `catch`
   * block's response. The reply carries the item as built; the table holds
   * it as the document client writes it.
   */
  method Save(db: DynamoDBUtil, item: Item, fault: Option<Error>) returns (resp: Reply)
    requires db.Valid()
    modifies db
    ensures db.Valid() && db.calls == old(db.calls) + 1
    ensures var id := Lookup(item, "id");
      && (resp.statusCode == 201 <==> fault.None? && ValidKey(id) && id.s !in old(db.table))
      && (resp.statusCode == 201 ==>
            && Responses.Carries(resp, item)
            && db.table == old(db.table)[id.s := Stored(item)] && db.order == old(db.order) + [id.s])
      && (resp.statusCode != 201 ==> db.table == old(db.table) && db.order == old(db.order))
      && (fault.None? && ValidKey(id) && id.s in old(db.table) ==> resp == Rejection(DuplicateTask))
      && (fault.None? && !ValidKey(id) ==> resp.statusCode == 500 && Responses.Reports(resp, CreateFailed, None))
      && (fault.Some? ==> resp == CreateFailure(Rethrown(fault.value, AlreadyExists)))
  {
    var saved := db.Create(item, fault);
    if saved.Success? {
      resp := Responses.Created(saved.value);
    } else {
      resp := CreateFailure(saved.error);
    }
  }

  /**
   * The handler. `newId` is the `uuidv4()` value, `fault` an error the
   * table service raises on its own; `created` and `updated` are the two
   * clock readings of the timestamps.
   */
  method Handle(db: DynamoDBUtil, clock: Clock, e: Event, parse: Parser, cfg: JoiConfig, newId: string, fault: Option<Error>)
    returns (resp: Reply, ghost created: nat, ghost updated: nat)
    requires db.Valid()
    modifies db, clock
    ensures db.Valid()
    ensures Admit(e, parse, cfg).Failure? ==>
      && resp == Admit(e, parse, cfg).error && resp.statusCode == 400
      && db.calls == old(db.calls) && db.table == old(db.table) && db.order == old(db.order)
      && clock.now == old(clock.now)
    ensures Admit(e, parse, cfg).Success? ==>
      var item := NewItem(newId, Admit(e, parse, cfg).value, created, updated);
      var id := Lookup(item, "id");
      && old(clock.now) <= created <= updated == clock.now
      && db.calls == old(db.calls) + 1
      && (resp.statusCode == 201 <==> fault.None? && ValidKey(id) && id.s !in old(db.table))
      && (resp.statusCode == 201 ==>
            && Responses.Carries(resp, item)
            && db.table == old(db.table)[id.s := Stored(item)] && db.order == old(db.order) + [id.s])
      && (resp.statusCode != 201 ==> db.table == old(db.table) && db.order == old(db.order))
      && (fault.None? && ValidKey(id) && id.s in old(db.table) ==> resp == Rejection(DuplicateTask))
      && (fault.None? && !ValidKey(id) ==> resp.statusCode == 500 && Responses.Reports(resp, CreateFailed, None))
      && (fault.Some? ==> resp == CreateFailure(Rethrown(fault.value, AlreadyExists)))
  {
    created, updated := 0, 0;
    var admitted := Admit(e, parse, cfg);
    if admitted.Failure? {
      resp := admitted.error;
      return;
    }
    var item;
    item, created, updated := Build(clock, newId, admitted.value);
    resp := Save(db, item, fault);
  }

  /**
   * `taskData`, `new Task(taskData)` and `toDynamoItem()`: two clock readings
   * for the timestamps, then the item of the task over them.
   */
  method Build(clock: Clock, newId: string, value: seq<Prop>) returns (item: Item, ghost created: nat, ghost updated: nat)
    modifies clock
    ensures old(clock.now) <= created <= updated == clock.now
    ensures item == NewItem(newId, value, created, updated)
  {
    var createdAt := clock.Read();
    var updatedAt := clock.Read();
    created, updated := createdAt, updatedAt;
    var data := TaskData(newId, ToMap(value), createdAt, updatedAt);
    var task := new Task(data, clock);
    ConstructStamped(data, task.createdAt, task.updatedAt);
    item := task.ToDynamoItem();
  }

  /**
   * The stored item of a valid body: the fresh id (unknown keys refused),
   * the trimmed title, status and priority defaulted to `pending` and
   * `medium`, a falsy user id replaced by `default-user`, and the two
   * timestamps in the order they were read.
   */
  lemma NewItemFields(cfg: JoiConfig, props: seq<Prop>, value: seq<Prop>, id: string, created: nat, updated: nat)
    requires ValidateCreate(cfg, Obj(props)) == Success(value)
    requires !cfg.allowUnknown
    ensures var f := NewTask(id, value, created, updated);
      var t := Get(props, "title");
      && f.id == Str(id)
      && f.createdAt == Instant(created) && f.updatedAt == Instant(updated)
      && t.Str? && f.title == Str(Trim(t.s))
      && f.status == (if Get(props, "status") == Undefined then Str(DefaultStatus) else Get(props, "status"))
      && f.priority == (if Get(props, "priority") == Undefined then Str(DefaultPriority) else Get(props, "priority"))
      && f.userId == Or(Get(props, "userId"), Str(DefaultUserId))
      && f.status.Str? && f.status.s in Statuses
      && f.priority.Str? && f.priority.s in Priorities
  {
    CreatedValue(cfg, props);
    TaskOfFields(id, ToMap(value), created, updated);
    LookupToMap(value, "title");
    LookupToMap(value, "status");
    LookupToMap(value, "priority");
    LookupToMap(value, "userId");
  }

  /** No status or priority is the empty string, so an enumerated one is truthy. */
  lemma EnumTruthy(v: Value, allowed: seq<string>)
    requires allowed == Statuses || allowed == Priorities
    requires v.Str? && v.s in allowed
    ensures !Falsy(v)
  {
    assert "" !in allowed;
  }

  /** The validated create body: trimmed title, enumerated status and priority with defaults, the user id as given, no `id`. */
  lemma CreatedValue(cfg: JoiConfig, props: seq<Prop>)
    requires ValidateCreate(cfg, Obj(props)).Success?
    requires !cfg.allowUnknown
    ensures var value := ValidateCreate(cfg, Obj(props)).value;
      var t := Get(props, "title");
      && !HasKey(value, "id")
      && t.Str? && Get(value, "title") == Str(Trim(t.s))
      && Get(value, "status") == (if Get(props, "status") == Undefined then Str(DefaultStatus) else Get(props, "status"))
      && Get(value, "priority") == (if Get(props, "priority") == Undefined then Str(DefaultPriority) else Get(props, "priority"))
      && Get(value, "userId") == Get(props, "userId")
      && Get(value, "status").Str? && Get(value, "status").s in Statuses
      && Get(value, "priority").Str? && Get(value, "priority").s in Priorities
      && !Falsy(Get(value, "status")) && !Falsy(Get(value, "priority"))
  {
    var value := ValidateCreate(cfg, Obj(props)).value;
    ValidateSuccess(Create, cfg, props);
    ValidatedValue(Create, cfg, props);
    OutputKeys(Create, cfg, props);
    AcceptedAt(Create, cfg, props, "title");
    AcceptedAt(Create, cfg, props, "status");
    AcceptedAt(Create, cfg, props, "priority");
    assert CheckField(Create, cfg, "status", Get(props, "status")) == CheckEnum(Statuses, Get(props, "status"));
    assert CheckField(Create, cfg, "priority", Get(props, "priority")) == CheckEnum(Priorities, Get(props, "priority"));
    EnumTruthy(Get(value, "status"), Statuses);
    EnumTruthy(Get(value, "priority"), Priorities);
  }

  /** The new task over the spread fields: the fresh id, the constructor's defaults, the two readings. */
  lemma TaskOfFields(id: string, fields: Item, created: nat, updated: nat)
    requires "id" !in fields
    ensures Construct(TaskData(id, fields, created, updated), Undefined, Undefined) == TaskFields(
      Str(id), Or(Lookup(fields, "userId"), Str(DefaultUserId)), Lookup(fields, "title"), Lookup(fields, "description"),
      Or(Lookup(fields, "status"), Str(DefaultStatus)), Or(Lookup(fields, "priority"), Str(DefaultPriority)),
      Lookup(fields, "dueDate"), Instant(created), Instant(updated))
  {
  }

  /**
   * A missing body is parsed as `{}`, which has no title, so the handler
   * answers 400 with a detail for `title`.
   */
  lemma AbsentBodyRejected(e: Event, parse: Parser, cfg: JoiConfig)
    requires e.body.None?
    requires parse("{}") == Some(Obj([]))
    ensures Admit(e, parse, cfg).Failure?
    ensures var r := Admit(e, parse, cfg).error;
      && r.statusCode == 400 && r.body.Some? && r.body.value.Err? && r.body.value.details.Some?
      && exists i :: 0 <= i < |r.body.value.details.value| && r.body.value.details.value[i].field == "title"
  {
    TitleRule(Create, cfg, []);
    var vs := Errors(Create, cfg, []);
    var i :| 0 <= i < |vs| && vs[i].path == ["title"];
    var r := Admit(e, parse, cfg).error;
    assert r == Responses.ValidationError(Details(vs));
    assert r.body.value.details.value[i].field == Responses.Field(Some(["title"]));
  }
}
