/**
 * The task table behind a document client: conditional put, get, an index
 * query with optional equality filters, an update built from an expression,
 * and conditional delete. The table is a map from id to item plus the order
 * in which ids were inserted, which the `UserIdIndex` query returns newest
 * first.
 */
module DynamoDb {
  import opened Wrappers
  import opened Text
  import opened Js
  import opened Seqs

  /** An error raised by the client or by the repository; `code` is the service's error code. */
  datatype Error = Error(code: Option<string>, message: string)

  const ConditionFailed: string := "ConditionalCheckFailedException"
  const ValidationFailed: string := "ValidationException"
  const AlreadyExists: string := "Item with this ID already exists"
  const NotFound: string := "Item not found"

  /** The message `catch` blocks raise for a failed condition; any other error is rethrown as it is. */
  function Rethrown(e: Error, conditionMessage: string): (r: Error)
    ensures r.code != Some(ConditionFailed)
    ensures e.code == Some(ConditionFailed) ==> r == Error(None, conditionMessage)
    ensures e.code != Some(ConditionFailed) ==> r == e
  {
    if e.code == Some(ConditionFailed) then Error(None, conditionMessage) else e
  }

  // ---------------------------------------------------------------------------
  // Query parameters

  /**
   * `attr = :placeholder`, one conjunct of a key condition or filter
   * expression; `attr` is an attribute name as written, or a `#` alias that
   * the request's attribute names resolve.
   */
  datatype Condition = Condition(attr: string, placeholder: string)

  function RenderCondition(c: Condition): string
  {
    c.attr + " = " + c.placeholder
  }

  /** The conjuncts joined with ` AND `. */
  function RenderConditions(cs: seq<Condition>): string
  {
    if cs == [] then ""
    else if |cs| == 1 then RenderCondition(cs[0])
    else RenderConditions(cs[..|cs| - 1]) + " AND " + RenderCondition(cs[|cs| - 1])
  }

  /** The optional filters of `getByUserId`; a missing one is `undefined`. */
  datatype QueryFilters = QueryFilters(status: Value, priority: Value)

  /**
   * The query request: the index, its key condition, the filter conjuncts the
   * filter expression spells out, the attribute-name aliases and the
   * placeholder values.
   */
  datatype QueryParams = QueryParams(
    indexName: string,
    keyCondition: Condition,
    keyConditionExpression: string,
    filter: seq<Condition>,
    filterExpression: Option<string>,
    names: map<string, string>,
    values: map<string, Value>,
    scanIndexForward: bool)

  /** The attribute a token of an expression names: an alias resolved, any other token as written. */
  function Attribute(token: string, names: map<string, string>): string
  {
    if token in names then names[token] else token
  }

  predicate Holds(c: Condition, names: map<string, string>, values: map<string, Value>, item: Item)
  {
    c.placeholder in values && Lookup(item, Attribute(c.attr, names)) == values[c.placeholder]
  }

  /** An item the query returns: it satisfies the key condition and every filter conjunct. */
  predicate Matches(q: QueryParams, item: Item)
  {
    && Holds(q.keyCondition, q.names, q.values, item)
    && forall i :: 0 <= i < |q.filter| ==> Holds(q.filter[i], q.names, q.values, item)
  }

  /**
   * DynamoDB's reserved words, as far as this table's expressions go: of the
   * attribute names `getByUserId` writes into an expression as they are
   * (`userId`, `status` and `priority`), `status` is reserved.
   */
  const ReservedWords: set<string> := {"status"}

  /** The service's refusal of a put without its key attribute. */
  const MissingKey: string := "One or more parameter values were invalid: Missing the key id in the item"

  /** The service's refusal of a put whose key attribute is the empty string. */
  const EmptyKey: string :=
    "One or more parameter values are not valid. The AttributeValue for a key attribute cannot contain an empty string value. Key: id"

  const ReservedKeyword: string := "Invalid FilterExpression: Attribute name is a reserved keyword; reserved keyword: status"

  /** The service refuses a filter that writes a reserved word as an attribute name instead of aliasing it. */
  predicate Refused(q: QueryParams)
  {
    exists i :: 0 <= i < |q.filter| && q.filter[i].attr in ReservedWords
  }

  /** The items `getByUserId(userId, filters)` is meant to list. */
  predicate Wanted(item: Item, userId: Value, filters: QueryFilters)
  {
    && Lookup(item, "userId") == userId
    && (!Falsy(filters.status) ==> Lookup(item, "status") == filters.status)
    && (!Falsy(filters.priority) ==> Lookup(item, "priority") == filters.priority)
  }

  /**
   * The query of `getByUserId` as written: the key condition on `userId`,
   * then a status conjunct and a priority conjunct, each only when that
   * filter is truthy, with no attribute-name aliases. The conjuncts select
   * exactly the wanted items, but the status conjunct names the reserved
   * word `status` as it is, so the service refuses every query with a
   * truthy status filter.
   */
  method BuildQuery(userId: Value, filters: QueryFilters) returns (q: QueryParams)
    ensures q.indexName == "UserIdIndex" && !q.scanIndexForward
    ensures q.keyCondition == Condition("userId", ":userId")
    ensures q.keyConditionExpression == RenderCondition(q.keyCondition)
    ensures q.filterExpression == if q.filter == [] then None else Some(RenderConditions(q.filter))
    ensures q.names == map[]
    ensures ":userId" in q.values && q.values[":userId"] == userId
    ensures ":status" in q.values <==> !Falsy(filters.status)
    ensures ":priority" in q.values <==> !Falsy(filters.priority)
    ensures q.values.Keys <= {":userId", ":status", ":priority"}
    ensures q.filter == FilterConditions(filters, "status")
    ensures forall item :: Matches(q, item) <==> Wanted(item, userId, filters)
    ensures Refused(q) <==> !Falsy(filters.status)
  {
    var values := map[":userId" := userId];
    var filterExpression: Option<string> := None;
    var filter: seq<Condition> := [];
    if !Falsy(filters.status) {
      filterExpression := Some("status = :status");
      filter := [Condition("status", ":status")];
      values := values[":status" := filters.status];
    }
    if !Falsy(filters.priority) {
      filterExpression :=
        if filterExpression.Some? then Some(filterExpression.value + " AND priority = :priority")
        else Some("priority = :priority");
      filter := filter + [Condition("priority", ":priority")];
      values := values[":priority" := filters.priority];
    }
    q := QueryParams("UserIdIndex", Condition("userId", ":userId"), "userId = :userId",
                     filter, filterExpression, map[], values, false);
    KeyShape();
    StatusShape();
    PriorityShape();
    BothShape();
    QuerySelects(q, userId, filters, "status");
    RefusedExactly(q, filters, "status");
  }

  /**
   * The query as intended: the same conjuncts with the status attribute
   * written through the alias `#status`, which is declared only when the
   * status conjunct uses it.
   */
  function AliasedQuery(userId: Value, filters: QueryFilters): (q: QueryParams)
    ensures q.indexName == "UserIdIndex" && !q.scanIndexForward
    ensures q.filterExpression == if q.filter == [] then None else Some(RenderConditions(q.filter))
    ensures !Falsy(filters.status) ==> q.names == map["#status" := "status"]
    ensures Falsy(filters.status) ==> q.names == map[]
    ensures !Refused(q)
    ensures forall item :: Matches(q, item) <==> Wanted(item, userId, filters)
  {
    var filter := FilterConditions(filters, "#status");
    var values :=
      map[":userId" := userId]
      + (if Falsy(filters.status) then map[] else map[":status" := filters.status])
      + (if Falsy(filters.priority) then map[] else map[":priority" := filters.priority]);
    var q := QueryParams("UserIdIndex", Condition("userId", ":userId"), "userId = :userId",
                         filter, if filter == [] then None else Some(RenderConditions(filter)),
                         if Falsy(filters.status) then map[] else map["#status" := "status"], values, false);
    QuerySelects(q, userId, filters, "#status");
    RefusedExactly(q, filters, "#status");
    q
  }

  /** The four filter expressions `getByUserId` can send. */
  lemma FilterExpressions(filters: QueryFilters)
    ensures Falsy(filters.status) && Falsy(filters.priority) ==> FilterConditions(filters, "status") == []
    ensures !Falsy(filters.status) && Falsy(filters.priority) ==>
      RenderConditions(FilterConditions(filters, "status")) == "status = :status"
    ensures Falsy(filters.status) && !Falsy(filters.priority) ==>
      RenderConditions(FilterConditions(filters, "status")) == "priority = :priority"
    ensures !Falsy(filters.status) && !Falsy(filters.priority) ==>
      RenderConditions(FilterConditions(filters, "status")) == "status = :status AND priority = :priority"
  {
    StatusShape();
    PriorityShape();
    BothShape();
    BothText();
  }

  /**
   * The conjuncts a query for `filters` carries: status, then priority, each
   * when truthy; `statusToken` is how the status attribute is written.
   */
  function FilterConditions(filters: QueryFilters, statusToken: string): seq<Condition>
  {
    (if Falsy(filters.status) then [] else [Condition(statusToken, ":status")])
    + (if Falsy(filters.priority) then [] else [Condition("priority", ":priority")])
  }

  /** A query with those conjuncts, names and values selects exactly the wanted items. */
  lemma QuerySelects(q: QueryParams, userId: Value, filters: QueryFilters, statusToken: string)
    requires q.keyCondition == Condition("userId", ":userId")
    requires q.filter == FilterConditions(filters, statusToken)
    requires Attribute("userId", q.names) == "userId" && Attribute("priority", q.names) == "priority"
    requires !Falsy(filters.status) ==> Attribute(statusToken, q.names) == "status"
    requires ":userId" in q.values && q.values[":userId"] == userId
    requires !Falsy(filters.status) ==> ":status" in q.values && q.values[":status"] == filters.status
    requires !Falsy(filters.priority) ==> ":priority" in q.values && q.values[":priority"] == filters.priority
    ensures forall item :: Matches(q, item) <==> Wanted(item, userId, filters)
  {
    forall item ensures Matches(q, item) <==> Wanted(item, userId, filters) {
      if !Falsy(filters.status) {
        assert q.filter[0] == Condition(statusToken, ":status");
      }
      if !Falsy(filters.priority) {
        assert q.filter[|q.filter| - 1] == Condition("priority", ":priority");
      }
    }
  }

  /** The service refuses the query exactly when its status conjunct is present and not aliased. */
  lemma RefusedExactly(q: QueryParams, filters: QueryFilters, statusToken: string)
    requires q.filter == FilterConditions(filters, statusToken)
    ensures Refused(q) <==> !Falsy(filters.status) && statusToken in ReservedWords
  {
    if !Falsy(filters.status) {
      assert q.filter[0].attr == statusToken;
    }
    if Refused(q) {
      var i :| 0 <= i < |q.filter| && q.filter[i].attr in ReservedWords;
      assert "priority" !in ReservedWords;
    }
  }

  /** The key condition renders as `userId = :userId`. */
  lemma KeyShape()
    ensures RenderCondition(Condition("userId", ":userId")) == "userId = :userId"
  {
  }

  /** The status conjunct alone renders as `status = :status`. */
  lemma StatusShape()
    ensures RenderConditions([Condition("status", ":status")]) == "status = :status"
  {
  }

  /** The priority conjunct alone renders as `priority = :priority`. */
  lemma PriorityShape()
    ensures RenderConditions([Condition("priority", ":priority")]) == "priority = :priority"
  {
  }

  /** The status and priority conjuncts render joined by ` AND `. */
  lemma BothShape()
    ensures RenderConditions([Condition("status", ":status"), Condition("priority", ":priority")])
      == "status = :status" + " AND priority = :priority"
  {
    var status, priority := Condition("status", ":status"), Condition("priority", ":priority");
    var both := [status, priority];
    assert both[..1] == [status];
    StatusShape();
    PriorityShape();
  }

  /** The filter text of both conjuncts, as one literal. */
  lemma BothText()
    ensures "status = :status" + " AND priority = :priority" == "status = :status AND priority = :priority"
  {
  }

  /** The query's result over ids listed newest first: the matching items, in that order. */
  function QueryResult(table: map<string, Item>, ids: seq<string>, q: QueryParams): (r: seq<Item>)
    requires forall i :: 0 <= i < |ids| ==> ids[i] in table
    ensures |r| <= |ids|
    ensures forall i :: 0 <= i < |r| ==> Matches(q, r[i]) && r[i] in table.Values
  {
    if ids == [] then []
    else
      var init := ids[..|ids| - 1];
      var item := table[ids[|ids| - 1]];
      QueryResult(table, init, q) + (if Matches(q, item) then [item] else [])
  }

  /** The tasks of `userId` passing the filters, over ids listed newest first. */
  function Listing(table: map<string, Item>, ids: seq<string>, userId: Value, filters: QueryFilters): (r: seq<Item>)
    requires forall i :: 0 <= i < |ids| ==> ids[i] in table
    ensures forall i :: 0 <= i < |r| ==> Wanted(r[i], userId, filters)
    ensures |r| <= |ids|
  {
    if ids == [] then []
    else
      var init := ids[..|ids| - 1];
      var item := table[ids[|ids| - 1]];
      Listing(table, init, userId, filters) + (if Wanted(item, userId, filters) then [item] else [])
  }

  /** A query that matches exactly the wanted items returns exactly the listing. */
  lemma {:induction false} QueryIsListing(table: map<string, Item>, ids: seq<string>, q: QueryParams, userId: Value, filters: QueryFilters)
    requires forall i :: 0 <= i < |ids| ==> ids[i] in table
    requires forall item :: Matches(q, item) <==> Wanted(item, userId, filters)
    ensures QueryResult(table, ids, q) == Listing(table, ids, userId, filters)
  {
    if ids != [] {
      QueryIsListing(table, ids[..|ids| - 1], q, userId, filters);
    }
  }

  /** Every stored item of `userId` that passes the filters is listed. */
  lemma {:induction false} ListingComplete(table: map<string, Item>, ids: seq<string>, userId: Value, filters: QueryFilters, k: nat)
    requires forall i :: 0 <= i < |ids| ==> ids[i] in table
    requires k < |ids| && Wanted(table[ids[k]], userId, filters)
    ensures table[ids[k]] in Listing(table, ids, userId, filters)
  {
    if k < |ids| - 1 {
      ListingComplete(table, ids[..|ids| - 1], userId, filters, k);
    }
  }

  /**
   * What the service answers to a query over ids listed newest first: a
   * fault as it is raised, a `ValidationException` for a filter that names a
   * reserved word, and otherwise the matching items.
   */
  function QueryOutcome(table: map<string, Item>, ids: seq<string>, q: QueryParams, fault: Option<Error>): (r: Result<seq<Item>, Error>)
    requires forall i :: 0 <= i < |ids| ==> ids[i] in table
    ensures r.Success? <==> fault.None? && !Refused(q)
    ensures fault.None? && Refused(q) ==> r.error.code == Some(ValidationFailed)
    ensures r.Success? ==> forall i :: 0 <= i < |r.value| ==> Matches(q, r.value[i])
  {
    if fault.Some? then Failure(fault.value)
    else if Refused(q) then Failure(Error(Some(ValidationFailed), ReservedKeyword))
    else Success(QueryResult(table, ids, q))
  }

  /** With the status attribute aliased, the service lists exactly the wanted items, whatever the filters. */
  lemma AliasedListing(table: map<string, Item>, ids: seq<string>, userId: Value, filters: QueryFilters)
    requires forall i :: 0 <= i < |ids| ==> ids[i] in table
    ensures QueryOutcome(table, ids, AliasedQuery(userId, filters), None) == Success(Listing(table, ids, userId, filters))
  {
    QueryIsListing(table, ids, AliasedQuery(userId, filters), userId, filters);
  }

  // ---------------------------------------------------------------------------
  // What the document client writes

  /**
   * A value as the document client writes it and reads it back. A `Date` has
   * a constructor the client does not convert, so it is written as a map of
   * its enumerable own properties, of which it has none.
   */
  function Marshal(v: Value): Value
  {
    match v
    case DateObj(_) => Obj([])
    case Arr(es) => Arr(seq(|es|, i requires 0 <= i < |es| => Marshal(es[i])))
    case Obj(ps) => Obj(seq(|ps|, i requires 0 <= i < |ps| => Prop(ps[i].key, Marshal(ps[i].val))))
    case _ => v
  }

  /** The attributes of an item as the table stores them. */
  function Stored(item: Item): (r: Item)
    ensures r.Keys == item.Keys
    ensures forall k :: k in item ==> r[k] == Marshal(item[k])
  {
    map k | k in item :: Marshal(item[k])
  }

  /** The item with every date written as its ISO text, as a `toISOString()` before the put would give. */
  function Written(item: Item): (r: Item)
    ensures r.Keys == item.Keys
    ensures forall k :: k in item ==> r[k] == Json(item[k])
  {
    map k | k in item :: Json(item[k])
  }

  /** A value without dates is written as it is. */
  lemma {:induction false} MarshalJson(v: Value)
    ensures Marshal(Json(v)) == Json(v)
  {
    match v
    case Arr(es) =>
      forall i | 0 <= i < |es| ensures Marshal(Json(es[i])) == Json(es[i]) {
        MarshalJson(es[i]);
      }
    case Obj(ps) =>
      forall i | 0 <= i < |ps| ensures Marshal(Json(ps[i].val)) == Json(ps[i].val) {
        MarshalJson(ps[i].val);
      }
    case _ =>
  }

  /** Writing dates as text twice is writing them once. */
  lemma {:induction false} JsonIdempotent(v: Value)
    ensures Json(Json(v)) == Json(v)
  {
    match v
    case Arr(es) =>
      forall i | 0 <= i < |es| ensures Json(Json(es[i])) == Json(es[i]) {
        JsonIdempotent(es[i]);
      }
    case Obj(ps) =>
      forall i | 0 <= i < |ps| ensures Json(Json(ps[i].val)) == Json(ps[i].val) {
        JsonIdempotent(ps[i].val);
      }
    case _ =>
  }

  /**
   * With dates written as ISO text, the table stores the item unchanged,
   * and a later read shows the same JSON as the reply to the create.
   */
  lemma WrittenReadsBack(item: Item)
    ensures Stored(Written(item)) == Written(item)
    ensures Written(Written(item)) == Written(item)
  {
    forall k | k in item ensures Marshal(Json(item[k])) == Json(item[k]) && Json(Json(item[k])) == Json(item[k]) {
      MarshalJson(item[k]);
      JsonIdempotent(item[k]);
    }
  }

  // ---------------------------------------------------------------------------
  // Update parameters

  /** `#attrI = :valI`: set the attribute named by `name` to the value under `value`. */
  datatype Assignment = Assignment(name: string, value: string)

  /** The update request: the key, the `SET` expression and what its placeholders stand for. */
  datatype UpdateParams = UpdateParams(
    key: string,
    expression: string,
    sets: seq<Assignment>,
    names: map<string, string>,
    values: map<string, Value>)

  function AttrName(i: nat): string
  {
    "#attr" + NatToString(i)
  }

  function ValName(i: nat): string
  {
    ":val" + NatToString(i)
  }

  function RenderAssignments(sets: seq<Assignment>): seq<string>
  {
    if sets == [] then []
    else RenderAssignments(sets[..|sets| - 1]) + [sets[|sets| - 1].name + " = " + sets[|sets| - 1].value]
  }

  lemma AttrNameInjective(i: nat, j: nat)
    ensures AttrName(i) == AttrName(j) <==> i == j
    ensures ValName(i) == ValName(j) <==> i == j
  {
    if AttrName(i) == AttrName(j) {
      PrefixedNatInjective("#attr", i, j);
    }
    if ValName(i) == ValName(j) {
      PrefixedNatInjective(":val", i, j);
    }
  }

  /** `#attr0` .. `#attr(n-1)`. */
  function AttrNames(n: nat): set<string>
  {
    if n == 0 then {} else AttrNames(n - 1) + {AttrName(n - 1)}
  }

  /** `:val0` .. `:val(n-1)`. */
  function ValNames(n: nat): set<string>
  {
    if n == 0 then {} else ValNames(n - 1) + {ValName(n - 1)}
  }

  lemma {:induction false} NamesMember(n: nat, i: nat)
    requires i < n
    ensures AttrName(i) in AttrNames(n) && ValName(i) in ValNames(n)
  {
    if i < n - 1 {
      NamesMember(n - 1, i);
    }
  }

  /**
   * The update request for `updates`: the I-th key gets the clause
   * `#attrI = :valI`, with `#attrI` naming the key and `:valI` holding its
   * value, and the clauses are joined into one `SET` expression in key order.
   */
  method BuildUpdate(id: string, updates: seq<Prop>) returns (p: UpdateParams)
    ensures p.key == id
    ensures Placeholders(updates, p.sets, p.names, p.values)
    ensures p.expression == "SET " + Join(RenderAssignments(p.sets), ", ")
  {
    var keys := Keys(updates);
    var updateExpressions: seq<string> := [];
    var sets: seq<Assignment> := [];
    var names: map<string, string> := map[];
    var values: map<string, Value> := map[];
    var index := 0;
    while index < |keys|
      invariant 0 <= index <= |keys|
      invariant Bound(updates, ToMap(updates), index, sets, names, values)
      invariant updateExpressions == RenderAssignments(sets)
    {
      var attributeName := AttrName(index);
      var attributeValue := ValName(index);
      assert keys[index] == updates[index].key;
      var value := Get(updates, keys[index]);
      assert HasKey(updates, keys[index]);
      ToMapGet(updates, keys[index]);
      BindNext(updates, ToMap(updates), index, sets, names, values, value);
      updateExpressions := updateExpressions + [attributeName + " = " + attributeValue];
      sets := sets + [Assignment(attributeName, attributeValue)];
      assert sets[..|sets| - 1] == sets[..index];
      names := names[attributeName := keys[index]];
      values := values[attributeValue := value];
      index := index + 1;
    }
    p := UpdateParams(id, "SET " + Join(updateExpressions, ", "), sets, names, values);
  }

  /** The store's reading of the assignments: each named attribute set to its value, in order. */
  function ApplySets(item: Item, sets: seq<Assignment>, names: map<string, string>, values: map<string, Value>): Item
  {
    ApplyFirst(item, sets, |sets|, names, values)
  }

  /** The item after the first `n` assignments. */
  function ApplyFirst(item: Item, sets: seq<Assignment>, n: nat, names: map<string, string>, values: map<string, Value>): Item
    requires n <= |sets|
  {
    if n == 0 then item
    else
      var s := sets[n - 1];
      var before := ApplyFirst(item, sets, n - 1, names, values);
      if s.name in names && s.value in values then before[names[s.name] := values[s.value]] else before
  }

  /** The attributes the first `n` keys of `updates` name, each with its value in `target`. */
  function PrefixMap(updates: seq<Prop>, target: Item, n: nat): Item
    requires n <= |updates|
  {
    if n == 0 then map[]
    else PrefixMap(updates, target, n - 1)[updates[n - 1].key := Lookup(target, updates[n - 1].key)]
  }

  /** Each of the first `n` clauses names the I-th key of `updates`. */
  predicate NamesResolve(updates: seq<Prop>, n: nat, sets: seq<Assignment>, names: map<string, string>)
  {
    && n <= |updates| && |sets| == n
    && forall i :: 0 <= i < n ==> sets[i].name in names && names[sets[i].name] == updates[i].key
  }

  /** Each of the first `n` clauses sets the I-th key of `updates` to its value in `target`. */
  predicate Resolves(updates: seq<Prop>, target: Item, n: nat, sets: seq<Assignment>, names: map<string, string>, values: map<string, Value>)
  {
    && NamesResolve(updates, n, sets, names)
    && forall i :: 0 <= i < n ==> sets[i].value in values && values[sets[i].value] == Lookup(target, updates[i].key)
  }

  /**
   * The first `n` clauses use the placeholders `#attrI` and `:valI`, only
   * those are defined, and they set the I-th key of `updates` to its value there.
   */
  predicate Bound(updates: seq<Prop>, target: Item, n: nat, sets: seq<Assignment>, names: map<string, string>, values: map<string, Value>)
  {
    && Resolves(updates, target, n, sets, names, values)
    && names.Keys == AttrNames(n) && values.Keys == ValNames(n)
    && forall i :: 0 <= i < n ==> sets[i] == Assignment(AttrName(i), ValName(i))
  }

  /** What the built request's placeholders stand for, key by key. */
  predicate Placeholders(updates: seq<Prop>, sets: seq<Assignment>, names: map<string, string>, values: map<string, Value>)
  {
    Bound(updates, ToMap(updates), |updates|, sets, names, values)
  }

  /** One more clause binds the next key under fresh placeholders. */
  lemma BindNext(updates: seq<Prop>, target: Item, n: nat, sets: seq<Assignment>, names: map<string, string>, values: map<string, Value>, v: Value)
    requires Bound(updates, target, n, sets, names, values) && n < |updates|
    requires v == Lookup(target, updates[n].key)
    ensures Bound(updates, target, n + 1, sets + [Assignment(AttrName(n), ValName(n))],
                  names[AttrName(n) := updates[n].key], values[ValName(n) := v])
  {
    var sets', names', values' := sets + [Assignment(AttrName(n), ValName(n))],
      names[AttrName(n) := updates[n].key], values[ValName(n) := v];
    forall i | 0 <= i < n
      ensures sets'[i] == sets[i] && names'[AttrName(i)] == names[AttrName(i)] && values'[ValName(i)] == values[ValName(i)]
    {
      AttrNameInjective(i, n);
    }
    assert names'.Keys == AttrNames(n + 1) && values'.Keys == ValNames(n + 1);
    assert NamesResolve(updates, n + 1, sets', names');
  }

  lemma {:induction false} ApplyPrefix(item: Item, updates: seq<Prop>, target: Item, sets: seq<Assignment>, names: map<string, string>, values: map<string, Value>, n: nat)
    requires n <= |updates|
    requires Resolves(updates, target, |updates|, sets, names, values)
    ensures ApplyFirst(item, sets, n, names, values) == item + PrefixMap(updates, target, n)
  {
    if n > 0 {
      ApplyPrefix(item, updates, target, sets, names, values, n - 1);
      var k := updates[n - 1].key;
      UnionUpdate(item, PrefixMap(updates, target, n - 1), k, Lookup(target, k));
    }
  }

  /** The first `n` keys are the attributes of the prefix map, with their values in `target`. */
  lemma {:induction false} PrefixMapAll(updates: seq<Prop>, target: Item, n: nat)
    requires n <= |updates|
    ensures forall k :: k in PrefixMap(updates, target, n) <==> exists i :: 0 <= i < n && updates[i].key == k
    ensures forall k :: k in PrefixMap(updates, target, n) ==> PrefixMap(updates, target, n)[k] == Lookup(target, k)
  {
    if n > 0 {
      PrefixMapAll(updates, target, n - 1);
    }
  }

  /**
   * Applying a request whose clauses set each key of `updates` to its value
   * in `target`, a map over exactly those keys, sets exactly those attributes
   * to those values.
   */
  lemma UpdateApplies(item: Item, updates: seq<Prop>, target: Item, p: UpdateParams)
    requires Resolves(updates, target, |updates|, p.sets, p.names, p.values)
    requires target.Keys == ToMap(updates).Keys
    ensures ApplySets(item, p.sets, p.names, p.values) == item + target
  {
    ApplyPrefix(item, updates, target, p.sets, p.names, p.values, |updates|);
    AllKeys(updates, target);
  }

  /** Every key of the object, each with its value in `target`, is `target`. */
  lemma AllKeys(updates: seq<Prop>, target: Item)
    requires target.Keys == ToMap(updates).Keys
    ensures PrefixMap(updates, target, |updates|) == target
  {
    PrefixMapAll(updates, target, |updates|);
    var m := PrefixMap(updates, target, |updates|);
    forall k ensures k in m <==> k in target {
      if k in target {
        var i :| 0 <= i < |updates| && updates[i].key == k;
      }
    }
    assert m == target;
  }

  /** The placeholders' values as the client writes them still resolve, to the keys' written values. */
  lemma StoredResolves(updates: seq<Prop>, target: Item, n: nat, sets: seq<Assignment>, names: map<string, string>, values: map<string, Value>)
    requires Resolves(updates, target, n, sets, names, values)
    ensures Resolves(updates, Stored(target), n, sets, names, Stored(values))
  {
    forall i | 0 <= i < n ensures Stored(values)[sets[i].value] == Lookup(Stored(target), updates[i].key) {
      var k := updates[i].key;
      if k !in target {
        assert Marshal(Undefined) == Undefined;
      }
    }
  }

  lemma UnionUpdate(item: Item, m: Item, k: string, v: Value)
    ensures (item + m)[k := v] == item + m[k := v]
  {
  }

  /** Whether any assignment targets the key attribute `id`. */
  predicate SetsKey(p: UpdateParams)
  {
    exists i :: 0 <= i < |p.sets| && p.sets[i].name in p.names && p.names[p.sets[i].name] == "id"
  }

  /** What the store makes of a built request: its size, whether it assigns `id`. */
  lemma UpdateRequest(updates: seq<Prop>, p: UpdateParams)
    requires Placeholders(updates, p.sets, p.names, p.values)
    ensures |p.sets| == |updates|
    ensures SetsKey(p) <==> HasKey(updates, "id")
  {
    TouchesKey(updates, p);
  }

  /**
   * A request that does not assign `id` leaves the item's key alone and
   * sets the other keys to their values as the client writes them.
   */
  lemma UpdateKeepsKey(item: Item, updates: seq<Prop>, p: UpdateParams)
    requires Placeholders(updates, p.sets, p.names, p.values)
    requires !HasKey(updates, "id")
    ensures ApplySets(item, p.sets, p.names, Stored(p.values)) == item + Stored(ToMap(updates))
    ensures Lookup(ApplySets(item, p.sets, p.names, Stored(p.values)), "id") == Lookup(item, "id")
  {
    StoredResolves(updates, ToMap(updates), |updates|, p.sets, p.names, p.values);
    UpdateApplies(item, updates, Stored(ToMap(updates)), p.(values := Stored(p.values)));
    assert "id" !in ToMap(updates);
  }

  /** The built request assigns `id` exactly when the update object has an `id` key. */
  lemma TouchesKey(updates: seq<Prop>, p: UpdateParams)
    requires NamesResolve(updates, |updates|, p.sets, p.names)
    ensures SetsKey(p) <==> HasKey(updates, "id")
  {
    if HasKey(updates, "id") {
      var i :| 0 <= i < |updates| && updates[i].key == "id";
    }
  }

  // ---------------------------------------------------------------------------
  // The repository

  class DynamoDBUtil {
    /** The stored items by id. */
    var table: map<string, Item>
    /** The stored ids in insertion order. */
    var order: seq<string>
    /** The number of requests sent to the table service. */
    ghost var calls: nat

    /** Ids are listed once each, exactly the stored ones, and each item carries its own id. */
    ghost predicate Valid()
      reads `table, `order
    {
      Consistent(table, order)
    }

    constructor ()
      ensures Valid() && table == map[] && order == [] && calls == 0
    {
      table := map[];
      order := [];
      calls := 0;
    }

    /**
     * `create`: a put under the condition `attribute_not_exists(id)`. An item
     * whose id is not a non-empty string is refused by the service as a key
     * error. The table holds the item as the document client writes it; the
     * item itself is returned.
     */
    method Create(item: Item, fault: Option<Error>) returns (r: Result<Item, Error>)
      requires Valid()
      modifies this
      ensures Valid() && calls == old(calls) + 1
      ensures r.Success? <==> fault.None? && ValidKey(Lookup(item, "id")) && Lookup(item, "id").s !in old(table)
      ensures r.Success? ==>
        && r.value == item
        && table == old(table)[Lookup(item, "id").s := Stored(item)]
        && order == old(order) + [Lookup(item, "id").s]
      ensures r.Failure? ==> table == old(table) && order == old(order)
      ensures fault.None? && ValidKey(Lookup(item, "id")) && Lookup(item, "id").s in old(table) ==>
        r == Failure(Error(None, AlreadyExists))
      ensures fault.None? && !ValidKey(Lookup(item, "id")) ==>
        r.Failure? && r.error.code == Some(ValidationFailed) && r.error.message != AlreadyExists
      ensures fault.Some? ==> r == Failure(Rethrown(fault.value, AlreadyExists))
    {
      calls := calls + 1;
      var id := Lookup(item, "id");
      if fault.Some? {
        r := Failure(Rethrown(fault.value, AlreadyExists));
      } else if !id.Str? {
        r := Failure(Error(Some(ValidationFailed), MissingKey));
      } else if id.s == "" {
        r := Failure(Error(Some(ValidationFailed), EmptyKey));
      } else if id.s in table {
        r := Failure(Rethrown(Error(Some(ConditionFailed), "The conditional request failed"), AlreadyExists));
      } else {
        assert Lookup(Stored(item), "id") == Str(id.s);
        InsertKeeps(table, order, id.s, Stored(item));
        table := table[id.s := Stored(item)];
        order := order + [id.s];
        r := Success(item);
      }
    }

    /** `getById`: the stored item, or none; the table is only read. */
    method GetById(id: string, fault: Option<Error>) returns (r: Result<Option<Item>, Error>)
      requires Valid()
      modifies this
      ensures Valid() && calls == old(calls) + 1
      ensures table == old(table) && order == old(order)
      ensures fault.Some? ==> r == Failure(fault.value)
      ensures fault.None? ==> r == Success(if id in table then Some(table[id]) else None)
    {
      calls := calls + 1;
      if fault.Some? {
        r := Failure(fault.value);
      } else {
        r := Success(if id in table then Some(table[id]) else None);
      }
    }

    /**
     * `getByUserId`: one query of the index, newest first, with the filters
     * as written; the table is only read. A truthy status filter names the
     * reserved word `status`, which the service refuses.
     */
    method GetByUserId(userId: Value, filters: QueryFilters, fault: Option<Error>) returns (r: Result<seq<Item>, Error>)
      requires Valid()
      modifies this
      ensures Valid() && calls == old(calls) + 1
      ensures table == old(table) && order == old(order)
      ensures fault.Some? ==> r == Failure(fault.value)
      ensures fault.None? && !Falsy(filters.status) ==> r == Failure(Error(Some(ValidationFailed), ReservedKeyword))
      ensures fault.None? && Falsy(filters.status) ==> r == Success(Listing(table, Reverse(order), userId, filters))
    {
      var q := BuildQuery(userId, filters);
      calls := calls + 1;
      var ids := Reverse(order);
      assert forall i :: 0 <= i < |ids| ==> ids[i] in table by {
        forall i | 0 <= i < |ids| ensures ids[i] in table {
          assert ids[i] == order[|order| - 1 - i];
        }
      }
      QueryIsListing(table, ids, q, userId, filters);
      r := QueryOutcome(table, ids, q, fault);
    }

    /**
     * `update`: the built request under the condition `attribute_exists(id)`.
     * The service refuses an empty `SET` and an assignment to the key
     * attribute before it tests the condition.
     */
    method Update(id: string, updates: seq<Prop>, fault: Option<Error>) returns (r: Result<Item, Error>)
      requires Valid()
      modifies this
      ensures Valid() && calls == old(calls) + 1 && order == old(order)
      ensures r.Success? <==> fault.None? && updates != [] && !HasKey(updates, "id") && id in old(table)
      ensures r.Success? ==> r.value == old(table)[id] + Stored(ToMap(updates)) && table == old(table)[id := r.value]
      ensures r.Failure? ==> table == old(table)
      ensures fault.None? && updates != [] && !HasKey(updates, "id") && id !in old(table) ==>
        r == Failure(Error(None, NotFound))
      ensures fault.Some? ==> r == Failure(Rethrown(fault.value, NotFound))
    {
      calls := calls + 1;
      r := SendUpdate(table, order, id, updates, fault);
      if r.Success? {
        table := table[id := r.value];
      }
    }

    /** `delete`: removal under the condition `attribute_exists(id)`, returning the old item. */
    method Delete(id: string, fault: Option<Error>) returns (r: Result<Item, Error>)
      requires Valid()
      modifies this
      ensures Valid() && calls == old(calls) + 1
      ensures r.Success? <==> fault.None? && id in old(table)
      ensures r.Success? ==> r.value == old(table)[id] && table == old(table) - {id}
      ensures r.Success? ==> order == Without(old(order), id)
      ensures r.Failure? ==> table == old(table) && order == old(order)
      ensures fault.None? && id !in old(table) ==> r == Failure(Error(None, NotFound))
      ensures fault.Some? ==> r == Failure(Rethrown(fault.value, NotFound))
    {
      calls := calls + 1;
      if fault.Some? {
        r := Failure(Rethrown(fault.value, NotFound));
      } else if id !in table {
        r := Failure(Rethrown(Error(Some(ConditionFailed), "The conditional request failed"), NotFound));
      } else {
        RemoveKeeps(table, order, id);
        r := Success(table[id]);
        table := table - {id};
        order := Without(order, id);
      }
    }
  }

  /**
   * What `update` makes of a request against the table: a fault is rethrown,
   * the service refuses an empty `SET` and an assignment to the key attribute
   * before it tests the condition `attribute_exists(id)`, a failed condition
   * is raised as "Item not found", and otherwise the values, as the document
   * client writes them, are assigned and the new item is returned.
   */
  function UpdateOutcome(table: map<string, Item>, id: string, p: UpdateParams, fault: Option<Error>): (r: Result<Item, Error>)
    ensures r.Success? <==> fault.None? && p.sets != [] && !SetsKey(p) && id in table
    ensures r.Failure? ==> r.error.code != Some(ConditionFailed)
    ensures fault.None? && p.sets != [] && !SetsKey(p) && id !in table ==> r == Failure(Error(None, NotFound))
  {
    if fault.Some? then Failure(Rethrown(fault.value, NotFound))
    else if p.sets == [] then
      Failure(Error(Some(ValidationFailed), "Invalid UpdateExpression: Syntax error; token: \"<EOF>\""))
    else if SetsKey(p) then
      Failure(Error(Some(ValidationFailed), "Cannot update attribute id. This attribute is part of the key"))
    else if id !in table then
      Failure(Rethrown(Error(Some(ConditionFailed), "The conditional request failed"), NotFound))
    else Success(ApplySets(table[id], p.sets, p.names, Stored(p.values)))
  }

  /** The outcome of the request built for `updates`, in terms of `updates` alone. */
  lemma UpdateOutcomeSpec(table: map<string, Item>, order: seq<string>, id: string, updates: seq<Prop>, p: UpdateParams, fault: Option<Error>)
    requires Consistent(table, order)
    requires Placeholders(updates, p.sets, p.names, p.values)
    ensures var r := UpdateOutcome(table, id, p, fault);
      && (r.Success? <==> fault.None? && updates != [] && !HasKey(updates, "id") && id in table)
      && (r.Success? ==> r.value == table[id] + Stored(ToMap(updates)) && Consistent(table[id := r.value], order))
      && (fault.None? && updates != [] && !HasKey(updates, "id") && id !in table ==> r == Failure(Error(None, NotFound)))
      && (fault.Some? ==> r == Failure(Rethrown(fault.value, NotFound)))
  {
    UpdateRequest(updates, p);
    if fault.None? && updates != [] && !HasKey(updates, "id") && id in table {
      UpdateKeepsKey(table[id], updates, p);
      ReplaceKeeps(table, order, id, ApplySets(table[id], p.sets, p.names, Stored(p.values)));
    }
  }

  /** Builds the request for `updates` and returns what the table service answers to it. */
  method SendUpdate(table: map<string, Item>, order: seq<string>, id: string, updates: seq<Prop>, fault: Option<Error>)
    returns (r: Result<Item, Error>)
    requires Consistent(table, order)
    ensures r.Success? <==> fault.None? && updates != [] && !HasKey(updates, "id") && id in table
    ensures r.Success? ==> r.value == table[id] + Stored(ToMap(updates)) && Consistent(table[id := r.value], order)
    ensures fault.None? && updates != [] && !HasKey(updates, "id") && id !in table ==> r == Failure(Error(None, NotFound))
    ensures fault.Some? ==> r == Failure(Rethrown(fault.value, NotFound))
  {
    var p := BuildUpdate(id, updates);
    r := UpdateOutcome(table, id, p, fault);
    UpdateOutcomeSpec(table, order, id, updates, p, fault);
  }

  /** A key the table accepts: a non-empty string. */
  predicate ValidKey(id: Value)
  {
    id.Str? && id.s != ""
  }

  /**
   * A create followed by a get of the same id: the create answers with the
   * item as given, whose due date JSON writes as its ISO text, while the get
   * returns the due date as the empty map the document client wrote.
   */
  method CreateThenGet(db: DynamoDBUtil, item: Item) returns (created: Result<Item, Error>, fetched: Result<Option<Item>, Error>)
    requires db.Valid()
    modifies db
    ensures created.Success? ==> fetched == Success(Some(Stored(item)))
    ensures created.Success? && Lookup(item, "dueDate").DateObj? ==>
      && Json(Lookup(created.value, "dueDate")) == Str(Lookup(item, "dueDate").iso)
      && Lookup(fetched.value.value, "dueDate") == Obj([])
  {
    created := db.Create(item, None);
    var id := Lookup(item, "id");
    fetched := db.GetById(if id.Str? then id.s else "", None);
  }

  /** Ids are listed once each, exactly the stored ones, and each item carries its own id. */
  ghost predicate Consistent(table: map<string, Item>, order: seq<string>)
  {
    && (forall id :: id in table <==> id in order)
    && (forall i, j :: 0 <= i < j < |order| ==> order[i] != order[j])
    && (forall id :: id in table ==> Lookup(table[id], "id") == Str(id))
  }

  /** `s` with every occurrence of `x` removed, the rest in order. */
  function Without(s: seq<string>, x: string): (r: seq<string>)
    ensures forall y :: y in r <==> y in s && y != x
    ensures |r| <= |s|
  {
    if s == [] then []
    else (if s[0] == x then [] else [s[0]]) + Without(s[1..], x)
  }

  /** Removing an element keeps a list free of duplicates. */
  lemma {:induction false} WithoutDistinct(s: seq<string>, x: string)
    requires forall i, j :: 0 <= i < j < |s| ==> s[i] != s[j]
    ensures forall i, j :: 0 <= i < j < |Without(s, x)| ==> Without(s, x)[i] != Without(s, x)[j]
  {
    if s != [] {
      var rest := Without(s[1..], x);
      WithoutDistinct(s[1..], x);
      if s[0] != x {
        assert s[0] !in s[1..];
        assert Without(s, x) == [s[0]] + rest;
      }
    }
  }

  lemma InsertKeeps(table: map<string, Item>, order: seq<string>, id: string, item: Item)
    requires Consistent(table, order) && id !in table && Lookup(item, "id") == Str(id)
    ensures Consistent(table[id := item], order + [id])
  {
  }

  lemma ReplaceKeeps(table: map<string, Item>, order: seq<string>, id: string, item: Item)
    requires Consistent(table, order) && id in table && Lookup(item, "id") == Str(id)
    ensures Consistent(table[id := item], order)
  {
  }

  lemma RemoveKeeps(table: map<string, Item>, order: seq<string>, id: string)
    requires Consistent(table, order)
    ensures Consistent(table - {id}, Without(order, id))
  {
    WithoutDistinct(order, id);
  }
}
