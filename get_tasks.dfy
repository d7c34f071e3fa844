/**
 * `GET /tasks`: the user id (defaulted), the optional status and priority
 * filters, one query, and a listing with its count and the filters echoed.
 */
module GetTasksHandler {
  import opened Wrappers
  import opened Js
  import opened Seqs
  import opened TaskModel
  import opened DynamoDb
  import opened Lambda
  import Responses

  /** The `filters` echoed back: the effective user id and the raw query values. */
  datatype Echo = Echo(userId: string, status: Value, priority: Value)

  /** The `data` of a listing. */
  datatype Listed = Listed(tasks: seq<Item>, count: nat, filters: Echo)

  type Reply = Responses.Response<Listed>

  const FetchFailed: string := "Failed to fetch tasks"

  /** `queryParams[key]`: the query value, `undefined` when absent. */
  function Param(e: Event, key: string): Value
  {
    if e.query.Some? && key in e.query.value then Str(e.query.value[key]) else Undefined
  }

  /** `queryParams.userId || "default-user"`. */
  function UserOf(e: Event): (u: string)
    ensures u != ""
    ensures Param(e, "userId") == Str(u) || (Falsy(Param(e, "userId")) && u == DefaultUserId)
  {
    var v := Param(e, "userId");
    if Falsy(v) then DefaultUserId else v.s
  }

  /** The `filters` object: status and priority only where the query gives a truthy one. */
  function FiltersOf(e: Event): (f: QueryFilters)
    ensures !Falsy(Param(e, "status")) ==> f.status == Param(e, "status")
    ensures Falsy(Param(e, "status")) ==> f.status == Undefined
    ensures !Falsy(Param(e, "priority")) ==> f.priority == Param(e, "priority")
    ensures Falsy(Param(e, "priority")) ==> f.priority == Undefined
  {
    QueryFilters(
      if Falsy(Param(e, "status")) then Undefined else Param(e, "status"),
      if Falsy(Param(e, "priority")) then Undefined else Param(e, "priority"))
  }

  /** The response body of a listing. */
  function ListingOf(e: Event, tasks: seq<Item>): (l: Listed)
    ensures l.count == |l.tasks| && l.tasks == tasks
    ensures l.filters == Echo(UserOf(e), Param(e, "status"), Param(e, "priority"))
  {
    Listed(tasks, |tasks|, Echo(UserOf(e), Param(e, "status"), Param(e, "priority")))
  }

  /**
   * The handler; `fault` is an error the table service raises on its own.
   * The table is never changed. A query with a truthy status is refused by
   * the service, which the `catch` block answers with 500.
   */
  method Handle(db: DynamoDBUtil, e: Event, fault: Option<Error>) returns (resp: Reply)
    requires db.Valid()
    modifies db
    ensures db.Valid() && db.table == old(db.table) && db.order == old(db.order)
    ensures db.calls == old(db.calls) + 1
    ensures fault.None? && Falsy(Param(e, "status")) ==>
      var tasks := Listing(db.table, Reverse(db.order), Str(UserOf(e)), FiltersOf(e));
      resp.statusCode == 200 && Responses.Carries(resp, ListingOf(e, tasks))
    ensures fault.Some? || !Falsy(Param(e, "status")) ==>
      resp.statusCode == 500 && Responses.Reports(resp, FetchFailed, None)
  {
    var tasks := db.GetByUserId(Str(UserOf(e)), FiltersOf(e), fault);
    if tasks.Success? {
      resp := Responses.Success(ListingOf(e, tasks.value), None);
    } else {
      resp := Responses.InternalError(Some(FetchFailed));
    }
  }

  /**
   * Every listed task belongs to the effective user and has the requested
   * status and priority wherever the query names one; every stored task that
   * does is listed; and the query with the status attribute aliased returns
   * exactly this listing.
   */
  lemma ListedExactly(table: map<string, Item>, ids: seq<string>, e: Event)
    requires forall i :: 0 <= i < |ids| ==> ids[i] in table
    ensures var tasks := Listing(table, ids, Str(UserOf(e)), FiltersOf(e));
      forall i :: 0 <= i < |tasks| ==>
        && Lookup(tasks[i], "userId") == Str(UserOf(e))
        && (Param(e, "status") != Undefined && Param(e, "status") != Str("") ==> Lookup(tasks[i], "status") == Param(e, "status"))
        && (Param(e, "priority") != Undefined && Param(e, "priority") != Str("") ==> Lookup(tasks[i], "priority") == Param(e, "priority"))
    ensures forall k :: 0 <= k < |ids| && Wanted(table[ids[k]], Str(UserOf(e)), FiltersOf(e)) ==>
      table[ids[k]] in Listing(table, ids, Str(UserOf(e)), FiltersOf(e))
    ensures QueryOutcome(table, ids, AliasedQuery(Str(UserOf(e)), FiltersOf(e)), None)
         == Success(Listing(table, ids, Str(UserOf(e)), FiltersOf(e)))
  {
    AliasedListing(table, ids, Str(UserOf(e)), FiltersOf(e));
    forall k | 0 <= k < |ids| && Wanted(table[ids[k]], Str(UserOf(e)), FiltersOf(e))
      ensures table[ids[k]] in Listing(table, ids, Str(UserOf(e)), FiltersOf(e))
    {
      ListingComplete(table, ids, Str(UserOf(e)), FiltersOf(e), k);
    }
  }
}
