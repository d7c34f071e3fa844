/** `GET /tasks/{id}`: the id guard, then one read of the table. */
module GetTaskHandler {
  import opened Wrappers
  import opened Js
  import opened DynamoDb
  import opened Lambda
  import Responses

  type Reply = Responses.Response<Item>

  const FetchFailed: string := "Failed to fetch task"

  /** The answer to what `getById` returned: the item, or 404 for none. */
  function Found(r: Result<Option<Item>, Error>): (resp: Reply)
    ensures r.Success? && r.value.Some? ==> resp.statusCode == 200 && Responses.Carries(resp, r.value.value)
    ensures r.Success? && r.value.None? ==> resp.statusCode == 404 && resp == Responses.NotFound(Some("Task"))
    ensures r.Failure? ==> resp.statusCode == 500 && Responses.Reports(resp, FetchFailed, None)
  {
    match r
    case Success(Some(item)) => Responses.Success(item, None)
    case Success(None) => Responses.NotFound(Some("Task"))
    case Failure(_) => Responses.InternalError(Some(FetchFailed))
  }

  /** The handler; `fault` is an error the table service raises on its own. The table is never changed. */
  method Handle(db: DynamoDBUtil, e: Event, fault: Option<Error>) returns (resp: Reply)
    requires db.Valid()
    modifies db
    ensures db.Valid() && db.table == old(db.table) && db.order == old(db.order)
    ensures TaskId(e).None? ==> resp == Rejection(IdRequired) && db.calls == old(db.calls)
    ensures TaskId(e).Some? ==>
      var id := TaskId(e).value;
      && db.calls == old(db.calls) + 1
      && (fault.None? && id in db.table ==> resp.statusCode == 200 && Responses.Carries(resp, db.table[id]))
      && (fault.None? && id !in db.table ==> resp.statusCode == 404 && resp == Responses.NotFound(Some("Task")))
      && (fault.Some? ==> resp.statusCode == 500 && Responses.Reports(resp, FetchFailed, None))
  {
    if TaskId(e).None? {
      resp := Rejection(IdRequired);
      return;
    }
    var task := db.GetById(TaskId(e).value, fault);
    resp := Found(task);
  }
}
