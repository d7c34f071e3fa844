/**
 * The client-side task store: the reducer over the task list, the loading
 * flag, the error and the list filters, and the views derived from it (the
 * filtered list and the counts by status and by priority).
 */
module TaskContext {
  import opened Wrappers
  import opened Text
  import opened Js
  import opened Seqs
  import opened TaskModel

  /** The store's state; `loading` and `error` hold whatever the actions carried. */
  datatype State = State(tasks: seq<Item>, loading: Value, error: Value, filters: Item)

  datatype Action =
    | SetTasks(tasks: seq<Item>)
    | AddTask(task: Item)
    | UpdateTask(task: Item)
    | DeleteTask(id: Value)
    | SetLoading(loading: Value)
    | SetError(error: Value)
    | SetFilters(filters: seq<Prop>)
    | ClearError
    | Other(kind: string)

  /** No tasks, not loading, no error, and the three filters empty. */
  const Initial: State := State([], Bool(false), Null, map["status" := Str(""), "priority" := Str(""), "search" := Str("")])

  function Id(t: Item): Value
  {
    Lookup(t, "id")
  }

  /** `tasks.map(task => task.id === payload.id ? payload : task)`. */
  function Replace(tasks: seq<Item>, task: Item): (r: seq<Item>)
    ensures |r| == |tasks|
    ensures forall i :: 0 <= i < |tasks| ==> r[i] == (if Id(tasks[i]) == Id(task) then task else tasks[i])
  {
    if tasks == [] then []
    else [if Id(tasks[0]) == Id(task) then task else tasks[0]] + Replace(tasks[1..], task)
  }

  /** `task => task.id !== id`. */
  function Keeps(id: Value): Item -> bool
  {
    t => Id(t) != id
  }

  /**
   * `tasks.filter(task => task.id !== id)`: the tasks without that id, in
   * their order, and every one of them, each as often as it is listed.
   */
  function Remove(tasks: seq<Item>, id: Value): (r: seq<Item>)
    ensures forall i :: 0 <= i < |r| ==> Id(r[i]) != id && r[i] in tasks
    ensures forall t :: t in tasks && Id(t) != id ==> t in r
    ensures IsSubsequence(r, tasks) && |r| == Count(tasks, Keeps(id))
    ensures forall t :: Count(r, Copy(t)) == Count(tasks, Copy(t)) || Id(t) == id
  {
    FilterIsSubsequence(tasks, Keeps(id));
    RemoveKeepsCopies(tasks, id);
    Filter(tasks, Keeps(id))
  }

  /** `task => task === t`: the copies of one task. */
  function Copy(t: Item): Item -> bool
  {
    u => u == t
  }

  /** Removing an id keeps every copy of each task with another id. */
  lemma {:induction false} RemoveKeepsCopies(tasks: seq<Item>, id: Value)
    ensures forall t :: Count(Filter(tasks, Keeps(id)), Copy(t)) == Count(tasks, Copy(t)) || Id(t) == id
  {
    if tasks != [] {
      RemoveKeepsCopies(tasks[1..], id);
      var rest := Filter(tasks[1..], Keeps(id));
      forall t | Id(t) != id ensures Count(Filter(tasks, Keeps(id)), Copy(t)) == Count(tasks, Copy(t)) {
        if Keeps(id)(tasks[0]) {
          assert ([tasks[0]] + rest)[1..] == rest;
        }
      }
    }
  }

  /** `taskReducer`. */
  function Reduce(s: State, a: Action): (r: State)
    ensures a.SetTasks? ==> r == s.(tasks := a.tasks, loading := Bool(false), error := Null)
    ensures a.AddTask? ==>
      && |r.tasks| == |s.tasks| + 1 && r.tasks[0] == a.task && r.tasks[1..] == s.tasks
      && r.loading == Bool(false) && r.error == Null && r.filters == s.filters
    ensures a.UpdateTask? ==>
      && |r.tasks| == |s.tasks| && r.loading == Bool(false) && r.error == Null && r.filters == s.filters
      && forall i :: 0 <= i < |s.tasks| ==>
           r.tasks[i] == (if Id(s.tasks[i]) == Id(a.task) then a.task else s.tasks[i])
    ensures a.DeleteTask? ==>
      && r.tasks == Remove(s.tasks, a.id)
      && r.loading == Bool(false) && r.error == Null && r.filters == s.filters
    ensures a.SetLoading? ==> r == s.(loading := a.loading)
    ensures a.SetError? ==> r == s.(error := a.error, loading := Bool(false))
    ensures a.SetFilters? ==>
      && r.tasks == s.tasks && r.loading == s.loading && r.error == s.error
      && (forall k :: HasKey(a.filters, k) ==> k in r.filters && r.filters[k] == Get(a.filters, k))
      && (forall k :: !HasKey(a.filters, k) ==> Lookup(r.filters, k) == Lookup(s.filters, k))
    ensures a.ClearError? ==> r == s.(error := Null)
    ensures a.Other? ==> r == s
  {
    match a
    case SetTasks(tasks) => s.(tasks := tasks, loading := Bool(false), error := Null)
    case AddTask(task) => s.(tasks := [task] + s.tasks, loading := Bool(false), error := Null)
    case UpdateTask(task) => s.(tasks := Replace(s.tasks, task), loading := Bool(false), error := Null)
    case DeleteTask(id) =>
      s.(tasks := Remove(s.tasks, id), loading := Bool(false), error := Null)
    case SetLoading(loading) => s.(loading := loading)
    case SetError(error) => s.(error := error, loading := Bool(false))
    case SetFilters(filters) =>
      SpreadOverrides(s.filters, filters);
      s.(filters := s.filters + ToMap(filters))
    case ClearError => s.(error := Null)
    case Other(_) => s
  }

  /** `{...old, ...payload}`: the payload's keys take the payload's values, the others keep theirs. */
  lemma SpreadOverrides(base: Item, payload: seq<Prop>)
    ensures forall k :: HasKey(payload, k) ==> k in base + ToMap(payload) && (base + ToMap(payload))[k] == Get(payload, k)
    ensures forall k :: !HasKey(payload, k) ==> Lookup(base + ToMap(payload), k) == Lookup(base, k)
  {
    forall k | HasKey(payload, k) ensures (base + ToMap(payload))[k] == Get(payload, k) {
      ToMapGet(payload, k);
    }
  }

  /**
   * Adding a task whose id no listed task has, then deleting that id,
   * gives back the list as it was.
   */
  lemma AddThenDelete(s: State, task: Item)
    requires forall i :: 0 <= i < |s.tasks| ==> Id(s.tasks[i]) != Id(task)
    ensures Reduce(Reduce(s, AddTask(task)), DeleteTask(Id(task))).tasks == s.tasks
  {
    var p := (t: Item) => Id(t) != Id(task);
    FilterAll(s.tasks, p);
    assert ([task] + s.tasks)[1..] == s.tasks;
  }

  /** Replacing a task by itself changes nothing when no other task shares its id. */
  lemma {:induction false} ReplaceSame(tasks: seq<Item>, task: Item)
    requires forall i :: 0 <= i < |tasks| ==> Id(tasks[i]) == Id(task) ==> tasks[i] == task
    ensures Replace(tasks, task) == tasks
  {
    if tasks != [] {
      ReplaceSame(tasks[1..], task);
      assert [tasks[0]] + tasks[1..] == tasks;
    }
  }

  // ---------------------------------------------------------------------------
  // The filtered list

  /** `v.toLowerCase()`: a string is lower-cased, anything else raises a `TypeError`. */
  function Lower(v: Value): Result<string, string>
  {
    if v.Str? then Success(ToLower(v.s)) else Failure("TypeError")
  }

  function StatusMatches(t: Item, filters: Item): bool
  {
    Falsy(Lookup(filters, "status")) || Lookup(t, "status") == Lookup(filters, "status")
  }

  function PriorityMatches(t: Item, filters: Item): bool
  {
    Falsy(Lookup(filters, "priority")) || Lookup(t, "priority") == Lookup(filters, "priority")
  }

  /**
   * The filter callback as written: the status and priority tests, then the
   * search, which lower-cases the title and, when the title does not match,
   * the description, raising a `TypeError` on a task without one.
   */
  function MatchesAsWritten(t: Item, filters: Item): (r: Result<bool, string>)
    ensures r.Failure? ==> r.error == "TypeError"
    ensures Described(t) && Searchable(filters) ==> r.Success?
    ensures !Falsy(Lookup(filters, "search")) && !Lookup(t, "title").Str? ==> r.Failure?
  {
    var others := StatusMatches(t, filters) && PriorityMatches(t, filters);
    var search := Lookup(filters, "search");
    if Falsy(search) then Success(others)
    else
      match Lower(Lookup(t, "title"))
      case Failure(e) => Failure(e)
      case Success(title) =>
        match Lower(search)
        case Failure(e) => Failure(e)
        case Success(q) =>
          if Includes(title, q) then Success(others)
          else
            match Lower(Lookup(t, "description"))
            case Failure(e) => Failure(e)
            case Success(description) => Success(others && Includes(description, q))
  }

  /** The task has a title and a description, both strings. */
  predicate Described(t: Item)
  {
    Lookup(t, "title").Str? && Lookup(t, "description").Str?
  }

  /** The search filter is empty or a string. */
  predicate Searchable(filters: Item)
  {
    Falsy(Lookup(filters, "search")) || Lookup(filters, "search").Str?
  }

  /**
   * `filteredTasks` as written: the first task whose callback raises aborts
   * the whole render; a list whose every task has a title and a description
   * always renders.
   */
  function FilteredAsWritten(tasks: seq<Item>, filters: Item): (r: Result<seq<Item>, string>)
    ensures r.Failure? ==> r.error == "TypeError"
    ensures (forall i :: 0 <= i < |tasks| ==> Described(tasks[i])) && Searchable(filters) ==> r.Success?
    ensures r.Success? ==> |r.value| <= |tasks|
  {
    if tasks == [] then Success([])
    else
      match MatchesAsWritten(tasks[0], filters)
      case Failure(e) => Failure(e)
      case Success(keep) =>
        match FilteredAsWritten(tasks[1..], filters)
        case Failure(e) => Failure(e)
        case Success(rest) => Success(if keep then [tasks[0]] + rest else rest)
  }

  /** `v` is a string that contains `q` once lower-cased. */
  predicate TextIncludes(v: Value, q: string)
  {
    v.Str? && Includes(ToLower(v.s), q)
  }

  /**
   * The filter as intended: status and priority as written; a non-empty
   * search string matches a task whose title or description contains it,
   * ignoring case, and a task without a description is matched on its title.
   */
  predicate Matches(t: Item, filters: Item)
  {
    var search := Lookup(filters, "search");
    && StatusMatches(t, filters) && PriorityMatches(t, filters)
    && (Falsy(search) ||
        (search.Str? &&
         (TextIncludes(Lookup(t, "title"), ToLower(search.s)) || TextIncludes(Lookup(t, "description"), ToLower(search.s)))))
  }

  /** `filteredTasks`, with a task lacking a description matched on its title alone. */
  function Filtered(tasks: seq<Item>, filters: Item): (r: seq<Item>)
    ensures forall i :: 0 <= i < |r| ==> r[i] in tasks && Matches(r[i], filters)
    ensures forall t :: t in tasks && Matches(t, filters) ==> t in r
  {
    Filter(tasks, t => Matches(t, filters))
  }

  /** The filtered list keeps the tasks it shows in the order of the list. */
  lemma FilteredKeepsOrder(tasks: seq<Item>, filters: Item)
    ensures IsSubsequence(Filtered(tasks, filters), tasks)
  {
    FilterIsSubsequence(tasks, t => Matches(t, filters));
  }

  /** With all three filters empty, every task is shown. */
  lemma FilteredWithoutFilters(tasks: seq<Item>, filters: Item)
    requires Falsy(Lookup(filters, "status")) && Falsy(Lookup(filters, "priority")) && Falsy(Lookup(filters, "search"))
    ensures Filtered(tasks, filters) == tasks
  {
    FilterAll(tasks, t => Matches(t, filters));
  }

  /** Wherever the callback as written does not raise, it decides as the intended filter does. */
  lemma MatchesAgree(t: Item, filters: Item)
    requires MatchesAsWritten(t, filters).Success?
    ensures MatchesAsWritten(t, filters).value == Matches(t, filters)
  {
  }

  /** Wherever `filteredTasks` as written renders, it shows exactly the intended list. */
  lemma {:induction false} FilteredAgrees(tasks: seq<Item>, filters: Item)
    requires FilteredAsWritten(tasks, filters).Success?
    ensures FilteredAsWritten(tasks, filters).value == Filtered(tasks, filters)
  {
    if tasks != [] {
      MatchesAgree(tasks[0], filters);
      FilteredAgrees(tasks[1..], filters);
    }
  }

  /** A task without a description, titled "Milk". */
  const MilkTask: Item := map["id" := Str("1"), "title" := Str("Milk"), "status" := Str("pending"), "priority" := Str("medium")]

  /** No status or priority filter, and the search "bread". */
  const BreadSearch: Item := map["status" := Str(""), "priority" := Str(""), "search" := Str("bread")]

  /**
   * Searching "bread" in a list holding only `MilkTask`: the callback as
   * written raises a `TypeError`, the intended filter hides the task.
   */
  lemma MissingDescriptionThrows()
    ensures FilteredAsWritten([MilkTask], BreadSearch) == Failure("TypeError")
    ensures Filtered([MilkTask], BreadSearch) == []
  {
    assert Lookup(MilkTask, "title") == Str("Milk");
    assert Lookup(MilkTask, "description") == Undefined;
    assert Lookup(BreadSearch, "search") == Str("bread");
    assert ToLower("Milk") == "milk";
    assert !Includes("milk", ToLower("bread"));
    assert MatchesAsWritten(MilkTask, BreadSearch) == Failure("TypeError");
    assert !Matches(MilkTask, BreadSearch);
  }

  // ---------------------------------------------------------------------------
  // Counts

  datatype StatusCounts = StatusCounts(total: nat, pending: nat, inProgress: nat, completed: nat, cancelled: nat)

  datatype PriorityCounts = PriorityCounts(low: nat, medium: nat, high: nat, urgent: nat)

  /** `task => task[field] === value`. */
  function Has(field: string, value: string): Item -> bool
  {
    t => Lookup(t, field) == Str(value)
  }

  /** `taskCounts`. */
  function TaskCounts(tasks: seq<Item>): (r: StatusCounts)
    ensures r.total == |tasks|
    ensures r.pending + r.inProgress + r.completed + r.cancelled <= r.total
  {
    FourWayCount(tasks, "status", "pending", "in-progress", "completed", "cancelled");
    StatusCounts(|tasks|,
      Count(tasks, Has("status", "pending")), Count(tasks, Has("status", "in-progress")),
      Count(tasks, Has("status", "completed")), Count(tasks, Has("status", "cancelled")))
  }

  /** `priorityCounts`. */
  function CountPriorities(tasks: seq<Item>): (r: PriorityCounts)
    ensures r.low + r.medium + r.high + r.urgent <= |tasks|
  {
    FourWayCount(tasks, "priority", "low", "medium", "high", "urgent");
    PriorityCounts(
      Count(tasks, Has("priority", "low")), Count(tasks, Has("priority", "medium")),
      Count(tasks, Has("priority", "high")), Count(tasks, Has("priority", "urgent")))
  }

  /** The count of a non-empty list: its head, if it passes, and the count of its tail. */
  lemma CountCons(tasks: seq<Item>, p: Item -> bool)
    requires tasks != []
    ensures Count(tasks, p) == (if p(tasks[0]) then 1 else 0) + Count(tasks[1..], p)
  {
  }

  /** The field of the task is one of the four values. */
  predicate OneOfFour(t: Item, field: string, a: string, b: string, c: string, d: string)
  {
    var v := Lookup(t, field);
    v == Str(a) || v == Str(b) || v == Str(c) || v == Str(d)
  }

  /**
   * Counting four distinct values of one field counts each task at most once,
   * and counts every task when each task's field holds one of them.
   */
  lemma {:induction false} FourWayCount(tasks: seq<Item>, field: string, a: string, b: string, c: string, d: string)
    requires a != b && a != c && a != d && b != c && b != d && c != d
    ensures Count(tasks, Has(field, a)) + Count(tasks, Has(field, b)) + Count(tasks, Has(field, c)) + Count(tasks, Has(field, d)) <= |tasks|
    ensures (forall i :: 0 <= i < |tasks| ==> OneOfFour(tasks[i], field, a, b, c, d)) ==>
      Count(tasks, Has(field, a)) + Count(tasks, Has(field, b)) + Count(tasks, Has(field, c)) + Count(tasks, Has(field, d)) == |tasks|
  {
    if tasks != [] {
      var rest := tasks[1..];
      if forall i :: 0 <= i < |tasks| ==> OneOfFour(tasks[i], field, a, b, c, d) {
        assert OneOfFour(tasks[0], field, a, b, c, d);
        forall i | 0 <= i < |rest| ensures OneOfFour(rest[i], field, a, b, c, d) {
          assert rest[i] == tasks[i + 1];
        }
      }
      FourWayCount(rest, field, a, b, c, d);
      CountCons(tasks, Has(field, a));
      CountCons(tasks, Has(field, b));
      CountCons(tasks, Has(field, c));
      CountCons(tasks, Has(field, d));
    }
  }

  /** The four status counts add up to the total when every status is one of the four. */
  lemma StatusCountsSum(tasks: seq<Item>)
    requires forall i :: 0 <= i < |tasks| ==> Lookup(tasks[i], "status").Str? && Lookup(tasks[i], "status").s in Statuses
    ensures var c := TaskCounts(tasks); c.pending + c.inProgress + c.completed + c.cancelled == c.total
  {
    forall i | 0 <= i < |tasks| ensures OneOfFour(tasks[i], "status", "pending", "in-progress", "completed", "cancelled") {
      assert Lookup(tasks[i], "status").s in Statuses;
    }
    FourWayCount(tasks, "status", "pending", "in-progress", "completed", "cancelled");
  }

  /** The four priority counts add up to the list length when every priority is one of the four. */
  lemma PriorityCountsSum(tasks: seq<Item>)
    requires forall i :: 0 <= i < |tasks| ==> Lookup(tasks[i], "priority").Str? && Lookup(tasks[i], "priority").s in Priorities
    ensures var c := CountPriorities(tasks); c.low + c.medium + c.high + c.urgent == |tasks|
  {
    forall i | 0 <= i < |tasks| ensures OneOfFour(tasks[i], "priority", "low", "medium", "high", "urgent") {
      assert Lookup(tasks[i], "priority").s in Priorities;
    }
    FourWayCount(tasks, "priority", "low", "medium", "high", "urgent");
  }
}
