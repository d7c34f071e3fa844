/** The create page's submit: validate the form, then post the payload once. */
module CreateTaskPage {
  import opened Wrappers
  import opened Js
  import opened TaskForm
  import TaskService

  /**
   * `handleSubmit`: `None` when validation fails and nothing is sent; the
   * `RangeError` of `toISOString()`, with nothing sent, when the due date is
   * an Invalid Date; otherwise what `createTask` resolves to or throws.
   */
  method Submit(form: Form, api: TaskService.Api, reply: Result<Value, Value>)
    returns (r: Option<Result<Value, TaskService.Thrown>>)
    modifies form, api
    ensures form.data == old(form.data) && form.errors == Problems(form.data)
    ensures Problems(form.data) != map[] ==> r.None? && api.sent == old(api.sent)
    ensures Problems(form.data) == map[] && form.data.dueDate.InvalidDate? ==>
      r == Some(Failure(InvalidTime)) && api.sent == old(api.sent)
    ensures Problems(form.data) == map[] && !form.data.dueDate.InvalidDate? ==>
      && api.sent == old(api.sent) + [TaskService.Request(TaskService.POST, TaskService.BasePath, Some(Payload(form.data).value))]
      && r == Some(TaskService.Outcome(reply))
  {
    var ok := form.Validate();
    if !ok {
      return None;
    }
    var taskData := Payload(form.data);
    if taskData.Failure? {
      return Some(Failure(taskData.error));
    }
    ValidFormSendable(form.data);
    var created := TaskService.CreateTask(api, taskData.value, reply);
    r := Some(created);
  }
}
