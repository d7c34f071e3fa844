/**
 * The edit page: the form filled from the loaded task, and the submit that
 * validates the form and puts all five fields once.
 */
module EditTaskPage {
  import opened Wrappers
  import opened Text
  import opened Js
  import opened TaskForm
  import TaskService

  /** `v || fallback` for a text field. */
  function TextOr(v: Value, fallback: string): (r: string)
    ensures v.Str? && v.s != "" ==> r == v.s
    ensures !(v.Str? && v.s != "") ==> r == fallback
  {
    if v.Str? && v.s != "" then v.s else fallback
  }

  /**
   * The form `loadTask` fills from a task: its texts or `''`, its status or
   * pending, its priority or medium, and its due date, when truthy, as
   * `parseISO` reads it: `parseIso` gives the `toISOString()` of the date it
   * returns, or `None` for an Invalid Date.
   */
  function Populate(task: Item, parseIso: Value -> Option<string>): (d: FormData)
    ensures d.title == TextOr(Lookup(task, "title"), "") && d.description == TextOr(Lookup(task, "description"), "")
    ensures d.status == TextOr(Lookup(task, "status"), "pending") && d.priority == TextOr(Lookup(task, "priority"), "medium")
    ensures d.dueDate.NoDate? <==> Falsy(Lookup(task, "dueDate"))
    ensures d.dueDate.InvalidDate? <==> !Falsy(Lookup(task, "dueDate")) && parseIso(Lookup(task, "dueDate")).None?
    ensures d.dueDate.Picked? ==> parseIso(Lookup(task, "dueDate")) == Some(d.dueDate.iso)
  {
    var due := Lookup(task, "dueDate");
    FormData(
      TextOr(Lookup(task, "title"), ""), TextOr(Lookup(task, "description"), ""),
      TextOr(Lookup(task, "status"), "pending"), TextOr(Lookup(task, "priority"), "medium"),
      if Falsy(due) then NoDate
      else match parseIso(due) case Some(iso) => Picked(iso) case None => InvalidDate)
  }

  /** `loadTask` once the task has arrived: the form shows it; the errors stay. */
  method Load(form: Form, task: Item, parseIso: Value -> Option<string>)
    modifies form
    ensures form.data == Populate(task, parseIso) && form.errors == old(form.errors)
  {
    form.data := Populate(task, parseIso);
  }

  /**
   * Reloading what a submit sent gives the form back, when its texts were
   * already trimmed, its selects set, and its due date read back as written.
   */
  lemma ReloadSaved(d: FormData, parseIso: Value -> Option<string>)
    requires Trim(d.title) == d.title && Trim(d.description) == d.description
    requires d.status != "" && d.priority != ""
    requires d.dueDate.Picked? ==> d.dueDate.iso != "" && parseIso(Str(d.dueDate.iso)) == Some(d.dueDate.iso)
    ensures Payload(d).Success? ==> Populate(ToMap(Payload(d).value.props), parseIso) == d
  {
    if Payload(d).Success? {
      var due := DateText(d.dueDate).value;
      assert Payload(d).value == Body(d, due);
      var ps := Body(d, due).props;
      BodyFields(d, due);
      LookupToMap(ps, "title");
      LookupToMap(ps, "description");
      LookupToMap(ps, "status");
      LookupToMap(ps, "priority");
      LookupToMap(ps, "dueDate");
      ReloadFields(d, ToMap(ps), parseIso);
    }
  }

  /** A task holding the form's fields as a submit writes them loads as that form. */
  lemma ReloadFields(d: FormData, task: Item, parseIso: Value -> Option<string>)
    requires Trim(d.title) == d.title && Trim(d.description) == d.description
    requires d.status != "" && d.priority != ""
    requires d.dueDate.Picked? ==> d.dueDate.iso != "" && parseIso(Str(d.dueDate.iso)) == Some(d.dueDate.iso)
    requires Lookup(task, "title") == Str(Trim(d.title)) && Lookup(task, "description") == Str(Trim(d.description))
    requires Lookup(task, "status") == Str(d.status) && Lookup(task, "priority") == Str(d.priority)
    requires DateText(d.dueDate).Success? && Lookup(task, "dueDate") == DateText(d.dueDate).value
    ensures Populate(task, parseIso) == d
  {
    var e := Populate(task, parseIso);
    assert e.title == d.title && e.description == d.description;
    assert e.status == d.status && e.priority == d.priority;
  }

  /**
   * A due date stored as the empty object `{}` loads as an Invalid Date when
   * `parseISO` cannot read an object, so submitting that form unchanged
   * throws a `RangeError` and sends nothing.
   */
  lemma StoredDateUnreadable(task: Item, parseIso: Value -> Option<string>)
    requires Lookup(task, "dueDate") == Obj([]) && parseIso(Obj([])).None?
    ensures Populate(task, parseIso).dueDate.InvalidDate?
    ensures Payload(Populate(task, parseIso)) == Failure(InvalidTime)
  {
  }

  /** The `updateTask(id, updateData)` call of a submit that passed validation. */
  method Save(api: TaskService.Api, id: string, updateData: Value, codec: TaskService.Codec, reply: Result<Value, Value>)
    returns (r: Result<Value, TaskService.Thrown>)
    modifies api
    ensures id == "" ==> r == Failure(TaskService.MissingId("updating")) && api.sent == old(api.sent)
    ensures id != "" ==>
      && api.sent == old(api.sent) + [TaskService.Request(TaskService.PUT, TaskService.TaskUrl(Str(id), codec), Some(updateData))]
      && r == TaskService.Outcome(reply)
  {
    r := TaskService.UpdateTask(api, Str(id), updateData, codec, reply);
  }

  /**
   * `handleSubmit`: `None` when validation fails and nothing is sent; the
   * `RangeError` of `toISOString()`, with nothing sent, when the due date is
   * an Invalid Date; otherwise what the update resolves to or throws.
   */
  method Submit(form: Form, api: TaskService.Api, id: string, codec: TaskService.Codec, reply: Result<Value, Value>)
    returns (r: Option<Result<Value, TaskService.Thrown>>)
    modifies form, api
    ensures form.data == old(form.data) && form.errors == Problems(form.data)
    ensures Problems(form.data) != map[] ==> r.None? && api.sent == old(api.sent)
    ensures Problems(form.data) == map[] && form.data.dueDate.InvalidDate? ==>
      r == Some(Failure(InvalidTime)) && api.sent == old(api.sent)
    ensures Problems(form.data) == map[] && !form.data.dueDate.InvalidDate? && id == "" ==>
      r == Some(Failure(TaskService.MissingId("updating"))) && api.sent == old(api.sent)
    ensures Problems(form.data) == map[] && !form.data.dueDate.InvalidDate? && id != "" ==>
      && api.sent == old(api.sent) + [TaskService.Request(TaskService.PUT, TaskService.TaskUrl(Str(id), codec), Some(Payload(form.data).value))]
      && r == Some(TaskService.Outcome(reply))
  {
    var ok := form.Validate();
    if !ok {
      return None;
    }
    var updateData := Payload(form.data);
    if updateData.Failure? {
      return Some(Failure(updateData.error));
    }
    var updated := Save(api, id, updateData.value, codec, reply);
    r := Some(updated);
  }
}
