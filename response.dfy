/**
 * The HTTP responses every handler returns: a status code and, except for
 * `204 No Content`, a JSON body that is either `{success: true, data}` or
 * `{success: false, error: {message, details}}`.
 */
module Responses {
  import opened Wrappers
  import opened Text
  import opened Js

  /** One entry of `error.details` in a validation failure. */
  datatype Detail = Detail(field: string, message: string, value: Value)

  /**
   * An error handed to `validationError`: a validator violation carries its
   * path and the offending value, a handler's own error has a message only.
   */
  datatype ErrorInput = ErrorInput(path: Option<seq<string>>, message: string, value: Value)

  /** The JSON body, generic in the type of the `data` a handler returns. */
  datatype Body<D> =
    | Ok(data: D)
    | Err(message: string, details: Option<seq<Detail>>)

  datatype Response<D> = Response(statusCode: int, body: Option<Body<D>>)

  const DefaultResource: string := "Resource"
  const DefaultInternalMessage: string := "Internal server error"
  const ValidationMessage: string := "Validation failed"

  /** The response reports success with exactly `data`. */
  predicate Carries<D(==)>(r: Response<D>, data: D)
  {
    r.body == Some(Ok(data))
  }

  /** The response reports a failure with `message` and `details`. */
  predicate Reports<D>(r: Response<D>, message: string, details: Option<seq<Detail>>)
  {
    r.body.Some? && r.body.value.Err? && r.body.value.message == message && r.body.value.details == details
  }

  /** `success(data, statusCode = 200)`. */
  function Success<D(==)>(data: D, statusCode: Option<int>): (r: Response<D>)
    ensures Carries(r, data)
    ensures statusCode.None? ==> r.statusCode == 200
    ensures statusCode.Some? ==> r.statusCode == statusCode.value
  {
    Response(if statusCode.Some? then statusCode.value else 200, Some(Ok(data)))
  }

  /** `error(message, statusCode = 400, details = null)`. */
  function Error<D>(message: string, statusCode: Option<int>, details: Option<seq<Detail>>): (r: Response<D>)
    ensures Reports(r, message, details)
    ensures statusCode.None? ==> r.statusCode == 400
    ensures statusCode.Some? ==> r.statusCode == statusCode.value
  {
    Response(if statusCode.Some? then statusCode.value else 400, Some(Err(message, details)))
  }

  /** The `field` of a detail: the path joined with `.`, or `unknown` without a path. */
  function Field(path: Option<seq<string>>): string
  {
    if path.Some? then Join(path.value, ".") else "unknown"
  }

  /** A field names its path: splitting it on `.` gives the path back when no segment contains a dot. */
  lemma FieldNamesPath(path: seq<string>)
    requires |path| >= 1
    requires forall i :: 0 <= i < |path| ==> '.' !in path[i]
    ensures SplitOn(Field(Some(path)), '.') == path
  {
    SplitJoin(path, '.');
  }

  function Format(e: ErrorInput): Detail
  {
    Detail(Field(e.path), e.message, e.value)
  }

  /** `validationError(errors)`: 400 "Validation failed" with one detail per error, in order. */
  function ValidationError<D>(errors: seq<ErrorInput>): (r: Response<D>)
    ensures r.statusCode == 400
    ensures r.body.Some? && r.body.value.Err? && r.body.value.message == ValidationMessage
    ensures r.body.value.details.Some? && |r.body.value.details.value| == |errors|
    ensures forall i :: 0 <= i < |errors| ==>
      var d := r.body.value.details.value[i];
      d.field == Field(errors[i].path) && d.message == errors[i].message && d.value == errors[i].value
  {
    Error(ValidationMessage, Some(400), Some(seq(|errors|, i requires 0 <= i < |errors| => Format(errors[i]))))
  }

  /** A handler's own validation message, which has no path and no value. */
  function Plain(message: string): ErrorInput
  {
    ErrorInput(None, message, Undefined)
  }

  /** `notFound(resource = "Resource")`: 404 with "<resource> not found". */
  function NotFound<D>(resource: Option<string>): (r: Response<D>)
    ensures r.statusCode == 404
    ensures r.body.Some? && r.body.value.Err? && r.body.value.details.None?
    ensures var m := r.body.value.message;
      && |m| >= |" not found"| && m[|m| - |" not found"|..] == " not found"
      && m[..|m| - |" not found"|] == (if resource.Some? then resource.value else DefaultResource)
  {
    var name := if resource.Some? then resource.value else DefaultResource;
    var r := Error(name + " not found", Some(404), None);
    assert (name + " not found")[..|name|] == name;
    r
  }

  /** `internalError(message = "Internal server error")`: 500 with the message and no details. */
  function InternalError<D>(message: Option<string>): (r: Response<D>)
    ensures r.statusCode == 500
    ensures Reports(r, if message.Some? then message.value else DefaultInternalMessage, None)
  {
    Error(if message.Some? then message.value else DefaultInternalMessage, Some(500), None)
  }

  /** `created(data)`: `success` with 201. */
  function Created<D(==)>(data: D): (r: Response<D>)
    ensures r.statusCode == 201 && Carries(r, data)
    ensures r == Success(data, Some(201))
  {
    Success(data, Some(201))
  }

  /** `noContent()`: 204 and no body. */
  function NoContent<D>(): (r: Response<D>)
    ensures r.statusCode == 204 && r.body.None?
  {
    Response(204, None)
  }
}
