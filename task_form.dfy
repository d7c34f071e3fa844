/**
 * The task form shared by the create and edit pages: the form data and the
 * error messages, the change handlers, `validateForm`, and the request
 * payload built on submit.
 */
module TaskForm {
  import opened Wrappers
  import opened Text
  import opened Js
  import TaskModel
  import TaskService

  /**
   * The form's due date: `null`, a `Date` whose `toISOString()` is `iso`, or
   * an Invalid Date, which the date picker passes for partly typed input and
   * `parseISO` returns for text it cannot read.
   */
  datatype DueDate = NoDate | Picked(iso: string) | InvalidDate

  /** The form's fields. */
  datatype FormData = FormData(title: string, description: string, status: string, priority: string, dueDate: DueDate)

  /** The fields a text box or a select edits. */
  datatype Field = Title | Description | Status | Priority

  const TitleRequired: string := "Title is required"
  const TitleTooLong: string := "Title must be less than 255 characters"
  const DescriptionTooLong: string := "Description must be less than 1000 characters"

  /** The form both pages start from: empty texts, pending, medium, no due date. */
  const Blank: FormData := FormData("", "", "pending", "medium", NoDate)

  function Name(f: Field): string
  {
    match f
    case Title => "title"
    case Description => "description"
    case Status => "status"
    case Priority => "priority"
  }

  /** `{...prev, [field]: value}`. */
  function Set(d: FormData, f: Field, value: string): (r: FormData)
    ensures f == Title ==> r == d.(title := value)
    ensures f == Description ==> r == d.(description := value)
    ensures f == Status ==> r == d.(status := value)
    ensures f == Priority ==> r == d.(priority := value)
  {
    match f
    case Title => d.(title := value)
    case Description => d.(description := value)
    case Status => d.(status := value)
    case Priority => d.(priority := value)
  }

  /**
   * The errors `validateForm` records: a blank title is required, a title
   * over 255 code units as typed is too long, and so is a description over
   * 1000 code units.
   */
  function Problems(d: FormData): (errors: map<string, string>)
    ensures errors.Keys <= {"title", "description"}
    ensures Trim(d.title) == "" ==> "title" in errors && errors["title"] == TitleRequired
    ensures Trim(d.title) != "" ==> ("title" in errors <==> JsLength(d.title) > TaskModel.MaxTitleLength)
    ensures "title" in errors && Trim(d.title) != "" ==> errors["title"] == TitleTooLong
    ensures "description" in errors <==> JsLength(d.description) > TaskModel.MaxDescriptionLength
    ensures "description" in errors ==> errors["description"] == DescriptionTooLong
  {
    Found(BlankTitle(d.title), LongTitle(d.title), LongDescription(d.description))
  }

  predicate BlankTitle(title: string) { Trim(title) == "" }

  predicate LongTitle(title: string) { JsLength(title) > TaskModel.MaxTitleLength }

  predicate LongDescription(description: string)
  {
    description != "" && JsLength(description) > TaskModel.MaxDescriptionLength
  }

  /** The errors recorded for a blank title, an overlong title and an overlong description. */
  function Found(blank: bool, longTitle: bool, longDescription: bool): map<string, string>
  {
    var t := TitleFound(blank, longTitle);
    if longDescription then t["description" := DescriptionTooLong] else t
  }

  /** The error recorded for the title alone. */
  function TitleFound(blank: bool, longTitle: bool): map<string, string>
  {
    if blank then map["title" := TitleRequired]
    else if longTitle then map["title" := TitleTooLong]
    else map[]
  }

  /** The problems of the form data are those found by the three checks. */
  lemma ProblemsFound(d: FormData)
    ensures Problems(d) == Found(BlankTitle(d.title), LongTitle(d.title), LongDescription(d.description))
  {
  }

  /** What `toISOString()` throws for an Invalid Date. */
  const InvalidTime: TaskService.Thrown := TaskService.Raised("RangeError")

  /** `formData.dueDate ? formData.dueDate.toISOString() : null`. */
  function DateText(due: DueDate): (r: Result<Value, TaskService.Thrown>)
    ensures due.NoDate? ==> r == Success(Null)
    ensures due.Picked? ==> r == Success(Str(due.iso))
    ensures due.InvalidDate? ==> r == Failure(InvalidTime)
  {
    match due
    case NoDate => Success(Null)
    case Picked(iso) => Success(Str(iso))
    case InvalidDate => Failure(InvalidTime)
  }

  /**
   * The request body of a submit: trimmed texts, the selects as chosen, the
   * due date as ISO text or `null`; building it throws a `RangeError` for
   * an Invalid Date.
   */
  function Payload(d: FormData): (r: Result<Value, TaskService.Thrown>)
    ensures r.Failure? <==> d.dueDate.InvalidDate?
    ensures r.Failure? ==> r.error == InvalidTime
    ensures r.Success? ==> r.value.Obj? && |r.value.props| == 5
  {
    match DateText(d.dueDate)
    case Failure(e) => Failure(e)
    case Success(due) => Success(Body(d, due))
  }

  /** The object literal of a submit, around the due date's text. */
  function Body(d: FormData, due: Value): (r: Value)
    ensures r.Obj? && |r.props| == 5
  {
    Obj([
      Prop("title", Str(Trim(d.title))),
      Prop("description", Str(Trim(d.description))),
      Prop("status", Str(d.status)),
      Prop("priority", Str(d.priority)),
      Prop("dueDate", due)])
  }

  /** The form state of a page: the data and the error messages by field name. */
  class Form {
    var data: FormData
    var errors: map<string, string>

    constructor ()
      ensures data == Blank && errors == map[]
    {
      data := Blank;
      errors := map[];
    }

    /** `handleChange(field)(event)`: sets the field; an error shown for it is blanked, not removed. */
    method Change(f: Field, value: string)
      modifies this
      ensures data == Set(old(data), f, value)
      ensures Name(f) in old(errors) && old(errors)[Name(f)] != "" ==> errors == old(errors)[Name(f) := ""]
      ensures !(Name(f) in old(errors) && old(errors)[Name(f)] != "") ==> errors == old(errors)
    {
      data := Set(data, f, value);
      if Name(f) in errors && errors[Name(f)] != "" {
        errors := errors[Name(f) := ""];
      }
    }

    /** `handleDateChange(date)`. */
    method ChangeDate(date: DueDate)
      modifies this
      ensures data == old(data).(dueDate := date)
      ensures "dueDate" in old(errors) && old(errors)["dueDate"] != "" ==> errors == old(errors)["dueDate" := ""]
      ensures !("dueDate" in old(errors) && old(errors)["dueDate"] != "") ==> errors == old(errors)
    {
      data := data.(dueDate := date);
      if "dueDate" in errors && errors["dueDate"] != "" {
        errors := errors["dueDate" := ""];
      }
    }

    /** `validateForm`: records the errors of the current data and reports whether there are none. */
    method Validate() returns (ok: bool)
      modifies this
      ensures data == old(data)
      ensures errors == Problems(data)
      ensures ok <==> errors == map[]
    {
      ProblemsFound(data);
      var blank := BlankTitle(data.title);
      var longTitle := LongTitle(data.title);
      var longDescription := LongDescription(data.description);
      var found: map<string, string> := map[];
      if blank {
        found := found["title" := TitleRequired];
      } else if longTitle {
        found := found["title" := TitleTooLong];
      }
      assert found == TitleFound(blank, longTitle);
      if longDescription {
        found := found["description" := DescriptionTooLong];
      }
      errors := found;
      ok := found == map[];
    }
  }

  /**
   * A title of one letter padded with 255 spaces is refused by the form,
   * although the server, which measures it trimmed, would accept it.
   */
  lemma PaddedTitleRefused(d: FormData)
    requires d.title == "a" + seq(255, i => ' ')
    ensures "title" in Problems(d) && Problems(d)["title"] == TitleTooLong
    ensures TaskModel.TitleOk(TaskModel.Create, Str(d.title))
  {
    var pad := seq(255, i => ' ');
    assert IsJsSpace(' ');
    assert TrimStart(d.title) == d.title;
    TrimEndSpaces(d.title, 1);
    assert Trim(d.title) == "a";
    JsLengthAppend("a", pad);
    assert JsLength(pad) >= |pad|;
  }

  /** Trimming the end of a string that is all white space after position `k` keeps its first `k` characters. */
  lemma {:induction false} TrimEndSpaces(s: string, k: nat)
    requires 0 < k <= |s| && !IsJsSpace(s[k - 1])
    requires forall i :: k <= i < |s| ==> IsJsSpace(s[i])
    ensures TrimEnd(s) == s[..k]
    decreases |s|
  {
    if |s| > k {
      TrimEndSpaces(s[..|s| - 1], k);
      assert s[..|s| - 1][..k] == s[..k];
    }
  }

  /**
   * A form that passes `validateForm` yields a body that passes the service's
   * title guard, and whose title and description meet the server's rules.
   */
  lemma ValidFormSendable(d: FormData)
    requires Problems(d) == map[]
    ensures Payload(d).Success? ==> TaskService.CheckTaskData(Payload(d).value).None?
    ensures TaskModel.TitleOk(TaskModel.Create, Str(Trim(d.title)))
    ensures TaskModel.DescriptionOk(Str(Trim(d.description)))
  {
    assert "title" !in Problems(d) && "description" !in Problems(d);
    TitleSendable(d.title);
    DescriptionSendable(d.description);
    PayloadTitle(d);
  }

  /** Each field of the payload, as property access reads it. */
  lemma PayloadFields(d: FormData)
    ensures Payload(d).Success? ==>
      var ps := Payload(d).value.props;
      && Get(ps, "title") == Str(Trim(d.title))
      && Get(ps, "description") == Str(Trim(d.description))
      && Get(ps, "status") == Str(d.status)
      && Get(ps, "priority") == Str(d.priority)
      && Get(ps, "dueDate") == (if d.dueDate.Picked? then Str(d.dueDate.iso) else Null)
  {
    if !d.dueDate.InvalidDate? {
      BodyFields(d, DateText(d.dueDate).value);
    }
  }

  /** Each field of the object literal, as property access reads it. */
  lemma BodyFields(d: FormData, due: Value)
    ensures var ps := Body(d, due).props;
      && Get(ps, "title") == Str(Trim(d.title))
      && Get(ps, "description") == Str(Trim(d.description))
      && Get(ps, "status") == Str(d.status)
      && Get(ps, "priority") == Str(d.priority)
      && Get(ps, "dueDate") == due
  {
    var ps := Body(d, due).props;
    var a, b, c, e := [ps[0]], [ps[0], ps[1]], [ps[0], ps[1], ps[2]], [ps[0], ps[1], ps[2], ps[3]];
    assert b == a + [ps[1]] && c == b + [ps[2]] && e == c + [ps[3]] && ps == e + [ps[4]];
    TaskModel.GetSkipsOther(e, ps[4], "title");
    TaskModel.GetSkipsOther(c, ps[3], "title");
    TaskModel.GetSkipsOther(b, ps[2], "title");
    TaskModel.GetSkipsOther(a, ps[1], "title");
    TaskModel.GetSkipsOther(e, ps[4], "description");
    TaskModel.GetSkipsOther(c, ps[3], "description");
    TaskModel.GetSkipsOther(b, ps[2], "description");
    TaskModel.GetSkipsOther(e, ps[4], "status");
    TaskModel.GetSkipsOther(c, ps[3], "status");
    TaskModel.GetSkipsOther(e, ps[4], "priority");
  }

  /** The title the service's guard reads from the payload is the trimmed title. */
  lemma PayloadTitle(d: FormData)
    ensures Payload(d).Success? ==> TaskService.TitleOf(Payload(d).value) == Str(Trim(d.title))
  {
    PayloadFields(d);
  }

  lemma TitleSendable(title: string)
    requires Trim(title) != "" && JsLength(title) <= TaskModel.MaxTitleLength
    ensures Trim(Trim(title)) != ""
    ensures TaskModel.TitleOk(TaskModel.Create, Str(Trim(title)))
  {
    TrimIdempotent(title);
    TrimShortens(title);
    TrimShortens(Trim(title));
  }

  lemma DescriptionSendable(description: string)
    requires JsLength(description) <= TaskModel.MaxDescriptionLength
    ensures TaskModel.DescriptionOk(Str(Trim(description)))
  {
    TrimIdempotent(description);
    TrimShortens(description);
  }
}
