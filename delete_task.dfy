/** `DELETE /tasks/{id}`: the id guard, then one conditional delete. */
module DeleteTaskHandler {
  import opened Wrappers
  import opened Js
  import opened DynamoDb
  import opened Lambda
  import Responses
  import GetTaskHandler

  /** The `data` of a successful delete. */
  datatype Deleted = Deleted(message: string, deletedTask: Item)

  type Reply = Responses.Response<Deleted>

  const DeletedMessage: string := "Task deleted successfully"
  const DeleteFailed: string := "Failed to delete task"

  /** What the `catch` block answers to a repository error. */
  function DeleteFailure(err: Error): (r: Reply)
    ensures err.message == NotFound ==> r.statusCode == 404 && r == Responses.NotFound(Some("Task"))
    ensures err.message != NotFound ==> r.statusCode == 500 && Responses.Reports(r, DeleteFailed, None)
  {
    if err.message == NotFound then Responses.NotFound(Some("Task"))
    else Responses.InternalError(Some(DeleteFailed))
  }

  /** The handler; `fault` is an error the table service raises on its own. */
  method Handle(db: DynamoDBUtil, e: Event, fault: Option<Error>) returns (resp: Reply)
    requires db.Valid()
    modifies db
    ensures db.Valid()
    ensures TaskId(e).None? ==>
      && resp == Rejection(IdRequired)
      && db.calls == old(db.calls) && db.table == old(db.table) && db.order == old(db.order)
    ensures TaskId(e).Some? ==>
      var id := TaskId(e).value;
      && db.calls == old(db.calls) + 1
      && (resp.statusCode == 200 <==> fault.None? && id in old(db.table))
      && (resp.statusCode == 200 ==>
            && Responses.Carries(resp, Deleted(DeletedMessage, old(db.table)[id]))
            && db.table == old(db.table) - {id} && db.order == Without(old(db.order), id))
      && (resp.statusCode != 200 ==> db.table == old(db.table) && db.order == old(db.order))
      && (fault.None? && id !in old(db.table) ==> resp == Responses.NotFound(Some("Task")))
      && (fault.Some? ==> resp == DeleteFailure(Rethrown(fault.value, NotFound)))
  {
    if TaskId(e).None? {
      resp := Rejection(IdRequired);
      return;
    }
    var deleted := db.Delete(TaskId(e).value, fault);
    if deleted.Success? {
      resp := Responses.Success(Deleted(DeletedMessage, deleted.value), None);
    } else {
      resp := DeleteFailure(deleted.error);
    }
  }

  /**
   * A successful delete followed by a get of the same id, with no fault on
   * the get: the get answers 404.
   */
  method DeleteThenGet(db: DynamoDBUtil, e: Event, fault: Option<Error>)
    returns (deleted: Reply, fetched: Responses.Response<Item>)
    requires db.Valid()
    modifies db
    ensures deleted.statusCode == 200 ==> fetched.statusCode == 404
    ensures TaskId(e).Some? && fault.None? && TaskId(e).value in old(db.table) ==> deleted.statusCode == 200
  {
    deleted := Handle(db, e, fault);
    fetched := GetTaskHandler.Handle(db, e, None);
  }
}
