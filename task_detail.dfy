/**
 * The task detail page's status helpers: the quick actions offered for the
 * loaded task's status, and the chip colours of statuses and priorities.
 */
module TaskDetail {
  import opened Wrappers
  import opened Js

  /** One quick action: its caption, the status `handleStatusChange` moves to, and its colour. */
  datatype QuickAction = QuickAction(caption: string, target: string, color: string)

  /** `getStatusColor`. */
  function StatusColor(status: Value): (c: string)
    ensures status == Str("completed") ==> c == "success"
    ensures status == Str("in-progress") ==> c == "info"
    ensures status == Str("cancelled") ==> c == "error"
    ensures status !in {Str("completed"), Str("in-progress"), Str("cancelled")} ==> c == "warning"
  {
    if status == Str("completed") then "success"
    else if status == Str("in-progress") then "info"
    else if status == Str("cancelled") then "error"
    else "warning"
  }

  /** `getPriorityColor`. */
  function PriorityColor(priority: Value): (c: string)
    ensures priority == Str("urgent") ==> c == "error"
    ensures priority == Str("high") ==> c == "warning"
    ensures priority == Str("medium") ==> c == "info"
    ensures priority !in {Str("urgent"), Str("high"), Str("medium")} ==> c == "default"
  {
    if priority == Str("urgent") then "error"
    else if priority == Str("high") then "warning"
    else if priority == Str("medium") then "info"
    else "default"
  }

  /**
   * The transition table: a pending task can be started, an in-progress one
   * completed or paused, a completed one reopened; nothing else is offered.
   */
  function Offered(status: Value): (actions: seq<QuickAction>)
    ensures status == Str("pending") ==> |actions| == 1 && actions[0].target == "in-progress"
    ensures status == Str("in-progress") ==> |actions| == 2 && actions[0].target == "completed" && actions[1].target == "pending"
    ensures status == Str("completed") ==> |actions| == 1 && actions[0].target == "in-progress"
    ensures status !in {Str("pending"), Str("in-progress"), Str("completed")} ==> actions == []
    ensures forall i :: 0 <= i < |actions| ==> Str(actions[i].target) != status
    ensures forall i :: 0 <= i < |actions| ==> actions[i].color == StatusColor(Str(actions[i].target))
  {
    if status == Str("pending") then [QuickAction("Start Task", "in-progress", "info")]
    else if status == Str("in-progress") then
      [QuickAction("Mark Complete", "completed", "success"), QuickAction("Pause Task", "pending", "warning")]
    else if status == Str("completed") then [QuickAction("Reopen Task", "in-progress", "info")]
    else []
  }

  /** `getQuickActions`: the actions pushed one by one for the loaded task, none while no task is loaded. */
  method QuickActions(task: Option<Item>) returns (actions: seq<QuickAction>)
    ensures task.None? ==> actions == []
    ensures task.Some? ==> actions == Offered(Lookup(task.value, "status"))
  {
    if task.None? {
      return [];
    }
    var status := Lookup(task.value, "status");
    actions := [];
    if status == Str("pending") {
      actions := actions + [QuickAction("Start Task", "in-progress", "info")];
    }
    if status == Str("in-progress") {
      actions := actions + [QuickAction("Mark Complete", "completed", "success")];
      actions := actions + [QuickAction("Pause Task", "pending", "warning")];
    }
    if status == Str("completed") {
      actions := actions + [QuickAction("Reopen Task", "in-progress", "info")];
    }
  }

  /** Some quick action of a task in status `from` moves it to `to`. */
  predicate Offers(from: Value, to: string)
  {
    exists j :: 0 <= j < |Offered(from)| && Offered(from)[j].target == to
  }

  /**
   * Every quick move can be undone by another: the status it leads to
   * offers an action back to the status it left.
   */
  lemma QuickMovesUndoable(status: Value)
    ensures forall i :: 0 <= i < |Offered(status)| ==> status.Str? && Offers(Str(Offered(status)[i].target), status.s)
  {
    if status == Str("pending") {
      assert Offered(Str("in-progress"))[1].target == "pending";
    } else if status == Str("in-progress") {
      assert Offered(Str("completed"))[0].target == "in-progress";
      assert Offered(Str("pending"))[0].target == "in-progress";
    } else if status == Str("completed") {
      assert Offered(Str("in-progress"))[0].target == "completed";
    }
  }
}
