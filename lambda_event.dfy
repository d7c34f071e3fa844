/**
 * The parts of an API Gateway event the handlers read, and the steps they
 * share: the path id guard, parsing the body, and turning validation
 * violations into response details.
 */
module Lambda {
  import opened Wrappers
  import opened Js
  import opened TaskModel
  import opened Responses

  /**
   * `event.body`, `event.pathParameters?.id` and
   * `event.queryStringParameters`; `None` stands for a missing or `null` one.
   */
  datatype Event = Event(body: Option<string>, pathId: Option<string>, query: Option<map<string, string>>)

  /** `JSON.parse`, which yields `None` where it throws. */
  type Parser = string -> Option<Value>

  /** `event.body || "{}"`: a missing or empty body reads as an empty object. */
  function BodyText(e: Event): (r: string)
    ensures r != ""
    ensures e.body.Some? && e.body.value != "" ==> r == e.body.value
    ensures e.body.None? || e.body.value == "" ==> r == "{}"
  {
    if e.body.Some? && e.body.value != "" then e.body.value else "{}"
  }

  /** The task id of the path, when it is truthy. */
  function TaskId(e: Event): (r: Option<string>)
    ensures r.Some? ==> r.value != "" && e.pathId == r
    ensures r.None? <==> e.pathId.None? || e.pathId.value == ""
  {
    if e.pathId.Some? && e.pathId.value != "" then e.pathId else None
  }

  /** The details of a validation error as `validationError` receives them, each with its path. */
  function Details(vs: seq<Violation>): (es: seq<ErrorInput>)
    ensures |es| == |vs|
    ensures forall i :: 0 <= i < |vs| ==> es[i] == ErrorInput(Some(vs[i].path), vs[i].message, vs[i].value)
  {
    seq(|vs|, i requires 0 <= i < |vs| => ErrorInput(Some(vs[i].path), vs[i].message, vs[i].value))
  }

  const IdRequired: string := "Task ID is required"
  const InvalidJson: string := "Invalid JSON in request body"

  /** The 400 response for a handler's own validation message. */
  function Rejection<D>(message: string): (r: Response<D>)
    ensures r.statusCode == 400
    ensures r.body.Some? && r.body.value.Err? && r.body.value.message == ValidationMessage
    ensures r.body.value.details == Some([Detail("unknown", message, Undefined)])
  {
    var r := ValidationError([Plain(message)]);
    assert r.body.value.details.value[0] == Detail("unknown", message, Undefined);
    assert r.body.value.details.value == [Detail("unknown", message, Undefined)];
    r
  }
}
