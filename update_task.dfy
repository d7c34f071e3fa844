/**
 * `PUT /tasks/{id}`: the id guard, parsing, validation against the update
 * schema, the empty-change check, then one conditional update carrying a
 * fresh `updatedAt`.
 */
module UpdateTaskHandler {
  import opened Wrappers
  import opened Js
  import opened SystemClock
  import opened TaskModel
  import opened DynamoDb
  import opened Lambda
  import Responses

  type Reply = Responses.Response<Item>

  const NoFields: string := "No valid fields provided for update"
  const UpdateFailed: string := "Failed to update task"

  /** The validated request: the task id and the validated changes. */
  datatype Change = Change(id: string, value: seq<Prop>)

  /** The guard chain in front of the store call: the request, or the 400 response it ends with. */
  function Admit(e: Event, parse: Parser, cfg: JoiConfig): (r: Result<Change, Reply>)
    ensures r.Failure? ==> r.error.statusCode == 400
    ensures TaskId(e).None? ==> r == Failure(Rejection(IdRequired))
    ensures TaskId(e).Some? && parse(BodyText(e)).None? ==> r == Failure(Rejection(InvalidJson))
    ensures r.Success? ==> Some(r.value.id) == TaskId(e) && r.value.value != []
    ensures r.Success? ==> parse(BodyText(e)).Some? && ValidateUpdate(cfg, parse(BodyText(e)).value) == Success(r.value.value)
    ensures r.Success? && !cfg.allowUnknown ==> !HasKey(r.value.value, "id") && !HasKey(r.value.value, "userId")
  {
    if TaskId(e).None? then Failure(Rejection(IdRequired))
    else
      match parse(BodyText(e))
      case None => Failure(Rejection(InvalidJson))
      case Some(body) =>
        match ValidateUpdate(cfg, body)
        case Failure(vs) => Failure(Responses.ValidationError(Details(vs)))
        case Success(value) =>
          if |Keys(value)| == 0 then Failure(Rejection(NoFields))
          else Success(Change(TaskId(e).value, value))
  }

  /** `updateData`: the validated changes followed by the new `updatedAt`. */
  function UpdateData(value: seq<Prop>, stamp: nat): (r: seq<Prop>)
    ensures |r| == |value| + 1 && r[..|value|] == value
    ensures ToMap(r) == ToMap(value)["updatedAt" := Instant(stamp)]
  {
    var r := value + [Prop("updatedAt", Instant(stamp))];
    assert r[..|r| - 1] == value;
    r
  }

  /** What the `catch` block answers to a repository error. */
  function UpdateFailure(err: Error): (r: Reply)
    ensures err.message == NotFound ==> r.statusCode == 404 && r == Responses.NotFound(Some("Task"))
    ensures err.message != NotFound ==> r.statusCode == 500 && Responses.Reports(r, UpdateFailed, None)
  {
    if err.message == NotFound then Responses.NotFound(Some("Task"))
    else Responses.InternalError(Some(UpdateFailed))
  }

  /**
   * The handler; `fault` is an error the table service raises on its own and
   * `stamp` the clock reading of the new `updatedAt`.
   */
  method Handle(db: DynamoDBUtil, clock: Clock, e: Event, parse: Parser, cfg: JoiConfig, fault: Option<Error>)
    returns (resp: Reply, ghost stamp: nat)
    requires db.Valid()
    modifies db, clock
    ensures db.Valid()
    ensures db.order == old(db.order)
    ensures Admit(e, parse, cfg).Failure? ==>
      resp == Admit(e, parse, cfg).error && resp.statusCode == 400
      && db.calls == old(db.calls) && db.table == old(db.table) && clock.now == old(clock.now)
    ensures Admit(e, parse, cfg).Success? ==>
      var id := Admit(e, parse, cfg).value.id;
      var changes := UpdateData(Admit(e, parse, cfg).value.value, stamp);
      && old(clock.now) <= stamp == clock.now
      && db.calls == old(db.calls) + 1
      && (resp.statusCode == 200 <==> fault.None? && !HasKey(changes, "id") && id in old(db.table))
      && (resp.statusCode == 200 ==>
            Responses.Carries(resp, old(db.table)[id] + Stored(ToMap(changes)))
            && db.table == old(db.table)[id := old(db.table)[id] + Stored(ToMap(changes))])
      && (resp.statusCode != 200 ==> db.table == old(db.table))
      && (fault.None? && !HasKey(changes, "id") && id !in old(db.table) ==> resp == Responses.NotFound(Some("Task")))
      && (fault.Some? ==> resp == UpdateFailure(Rethrown(fault.value, NotFound)))
  {
    stamp := 0;
    var admitted := Admit(e, parse, cfg);
    if admitted.Failure? {
      resp := admitted.error;
      return;
    }
    var now := clock.Read();
    stamp := now;
    var changes := UpdateData(admitted.value.value, now);
    var updated := db.Update(admitted.value.id, changes, fault);
    if updated.Success? {
      resp := Responses.Success(updated.value, None);
    } else {
      resp := UpdateFailure(updated.error);
    }
  }

  /**
   * Unless unknown keys are let through, the repository receives only
   * schema fields and the new `updatedAt`: never the key attribute.
   */
  lemma ChangesSent(cfg: JoiConfig, props: seq<Prop>, stamp: nat)
    requires ValidateUpdate(cfg, Obj(props)).Success?
    requires !cfg.allowUnknown
    ensures var changes := ToMap(UpdateData(ValidateUpdate(cfg, Obj(props)).value, stamp));
      && changes["updatedAt"] == Instant(stamp)
      && changes.Keys <= {"title", "description", "status", "priority", "dueDate", "updatedAt"}
      && !HasKey(UpdateData(ValidateUpdate(cfg, Obj(props)).value, stamp), "id")
  {
    ValidateSuccess(Update, cfg, props);
    OutputKeys(Update, cfg, props);
    SchemaChanges(ValidateUpdate(cfg, Obj(props)).value, stamp);
  }

  /** Changes made of update-schema fields only carry those fields and `updatedAt`. */
  lemma SchemaChanges(value: seq<Prop>, stamp: nat)
    requires forall i :: 0 <= i < |value| ==> value[i].key in SchemaKeys(Update)
    ensures var data := UpdateData(value, stamp);
      && ToMap(data).Keys <= {"title", "description", "status", "priority", "dueDate", "updatedAt"}
      && !HasKey(data, "id")
  {
    var data := UpdateData(value, stamp);
    forall k | k in ToMap(value) ensures k in {"title", "description", "status", "priority", "dueDate"} {
      var i :| 0 <= i < |value| && value[i].key == k;
    }
    forall i | 0 <= i < |data| ensures data[i].key != "id" {
      if i < |value| {
        assert data[i] == value[i];
      }
    }
  }

  /**
   * A body without any schema field never reaches the store: with unknown
   * keys refused it fails validation, and an empty one is "No valid fields
   * provided for update", whatever the table holds.
   */
  lemma NoFieldsRejected(e: Event, parse: Parser, cfg: JoiConfig, props: seq<Prop>)
    requires TaskId(e).Some?
    requires parse(BodyText(e)) == Some(Obj(props))
    requires forall i :: 0 <= i < |props| ==> props[i].key !in SchemaKeys(Update)
    requires !cfg.allowUnknown || props == []
    ensures Admit(e, parse, cfg).Failure? && Admit(e, parse, cfg).error.statusCode == 400
    ensures props == [] ==> Admit(e, parse, cfg).error == Rejection(NoFields)
    ensures props != [] ==> Admit(e, parse, cfg).error.body.value.message == Responses.ValidationMessage
  {
    UpdateWithoutSchemaFields(cfg, props);
  }
}
