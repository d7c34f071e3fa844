/**
 * The task entity: its create and update schemas, validation with every
 * violation collected, the conversion to and from a stored item, and the
 * in-place update of an allow-listed set of fields.
 */
module TaskModel {
  import opened Wrappers
  import opened Text
  import opened Js
  import opened SystemClock

  const Statuses: seq<string> := ["pending", "in-progress", "completed", "cancelled"]
  const Priorities: seq<string> := ["low", "medium", "high", "urgent"]
  const DefaultUserId: string := "default-user"
  const DefaultStatus: string := "pending"
  const DefaultPriority: string := "medium"
  const MaxTitleLength: nat := 255
  const MaxDescriptionLength: nat := 1000

  /**
   * What the schemas leave to the validation library: whether a value is an
   * ISO-8601 date (and the `toISOString` of the `Date` it converts to), and
   * whether keys outside the schema are let through (the library's default
   * rejects them).
   */
  datatype JoiConfig = JoiConfig(parseIsoDate: Value -> Option<string>, allowUnknown: bool)

  datatype Mode = Create | Update

  /** One entry of a validation error's `details`. */
  datatype Violation = Violation(path: seq<string>, kind: string, message: string, value: Value)

  /** The reasons a value can be refused. */
  datatype Kind =
    | Required
    | NotString
    | Empty
    | TooLong(limit: nat)
    | NotOneOf(allowed: seq<string>)
    | BadDate
    | NotDate
    | UnknownKey
    | NotObject

  /**
   * What one key's rule makes of the value found under that key. A rejected
   * value can be reported twice: a value outside `valid(...)` goes on to the
   * string type's own check, which `follow` reports when it fails too.
   */
  datatype Check = Absent | Accept(value: Value) | Reject(kind: Kind, value: Value, follow: Option<Kind>)

  /** The `type` of a violation of this kind. */
  function KindName(k: Kind): string
  {
    match k
    case Required => "any.required"
    case NotString => "string.base"
    case Empty => "string.empty"
    case TooLong(_) => "string.max"
    case NotOneOf(_) => "any.only"
    case BadDate => "date.format"
    case NotDate => "date.base"
    case UnknownKey => "object.unknown"
    case NotObject => "object.base"
  }

  /** The library's message for a violation of this kind at a key shown as `shown`. */
  function Message(shown: string, k: Kind): string
  {
    match k
    case Required => shown + " is required"
    case NotString => shown + " must be a string"
    case Empty => shown + " is not allowed to be empty"
    case TooLong(n) => shown + " length must be less than or equal to " + NatToString(n) + " characters long"
    case NotOneOf(allowed) => shown + " must be one of [" + Join(allowed, ", ") + "]"
    case BadDate => shown + " must be in ISO 8601 date format"
    case NotDate => shown + " must be a valid date"
    case UnknownKey => shown + " is not allowed"
    case NotObject => shown + " must be of type object"
  }

  function Label(key: string): string
  {
    "\"" + key + "\""
  }

  function MakeViolation(path: seq<string>, shown: string, k: Kind, v: Value): Violation
  {
    Violation(path, KindName(k), Message(shown, k), v)
  }

  /** The schema keys, in the order the schema declares them (and reports violations). */
  function SchemaKeys(mode: Mode): seq<string>
  {
    match mode
    case Create => ["title", "description", "status", "priority", "dueDate", "userId"]
    case Update => ["title", "description", "status", "priority", "dueDate"]
  }

  /** `title`: a string, trimmed, 1 to 255 code units; required on create only. */
  function CheckTitle(mode: Mode, v: Value): Check
  {
    if v == Undefined then
      if mode == Create then Reject(Required, v, None) else Absent
    else if !v.Str? then Reject(NotString, v, None)
    else
      var t := Trim(v.s);
      if t == "" then Reject(Empty, Str(t), None)
      else if JsLength(t) > MaxTitleLength then
        Reject(TooLong(MaxTitleLength), Str(t), None)
      else Accept(Str(t))
  }

  /** `description`: an optional string, trimmed, `""` allowed, at most 1000 code units. */
  function CheckDescription(v: Value): Check
  {
    if v == Undefined then Absent
    else if !v.Str? then Reject(NotString, v, None)
    else
      var t := Trim(v.s);
      if t == "" then Accept(Str(""))
      else if JsLength(t) > MaxDescriptionLength then
        Reject(TooLong(MaxDescriptionLength), Str(t), None)
      else Accept(Str(t))
  }

  /**
   * `status` and `priority`: one of a fixed set of strings. A value outside
   * the set is reported, and then so is a failure of the string type's own
   * check: not a string, or the empty string.
   */
  function CheckEnum(allowed: seq<string>, v: Value): Check
  {
    if v == Undefined then Absent
    else if v.Str? && v.s in allowed then Accept(v)
    else Reject(NotOneOf(allowed), v, StringBase(v))
  }

  /** The string type's own check of a value: not a string, or empty. */
  function StringBase(v: Value): Option<Kind>
  {
    if !v.Str? then Some(NotString)
    else if v.s == "" then Some(Empty)
    else None
  }

  /**
   * `dueDate`: `null` or an ISO-8601 date, converted to a `Date`. A string
   * that does not parse is in the wrong format; any other value is not a date.
   */
  function CheckDueDate(cfg: JoiConfig, v: Value): Check
  {
    if v == Undefined then Absent
    else if v == Null then Accept(Null)
    else
      var parsed := cfg.parseIsoDate(v);
      if parsed.Some? then Accept(DateObj(parsed.value))
      else Reject(if v.Str? then BadDate else NotDate, v, None)
  }

  /** `userId` (create only): an optional non-empty string, kept as given. */
  function CheckUserId(v: Value): Check
  {
    if v == Undefined then Absent
    else if !v.Str? then Reject(NotString, v, None)
    else if v.s == "" then Reject(Empty, v, None)
    else Accept(v)
  }

  function CheckField(mode: Mode, cfg: JoiConfig, key: string, v: Value): Check
  {
    if key == "title" then CheckTitle(mode, v)
    else if key == "description" then CheckDescription(v)
    else if key == "status" then CheckEnum(Statuses, v)
    else if key == "priority" then CheckEnum(Priorities, v)
    else if key == "dueDate" then CheckDueDate(cfg, v)
    else CheckUserId(v)
  }

  /** The violations, if any, of one schema key whose rule gave `c`: its first kind, then its follow-up. */
  function KeyViolations(key: string, c: Check): seq<Violation>
  {
    if c.Reject? then
      [MakeViolation([key], Label(key), c.kind, c.value)]
      + (if c.follow.Some? then [MakeViolation([key], Label(key), c.follow.value, c.value)] else [])
    else []
  }

  /** The violations of the schema keys `keys`, in order, at most two per key. */
  function SchemaViolations(mode: Mode, cfg: JoiConfig, props: seq<Prop>, keys: seq<string>): seq<Violation>
  {
    if keys == [] then []
    else
      KeyViolations(keys[0], CheckField(mode, cfg, keys[0], Get(props, keys[0])))
      + SchemaViolations(mode, cfg, props, keys[1..])
  }

  /** One violation per property outside the schema, unless unknown keys are allowed. */
  function UnknownViolations(mode: Mode, cfg: JoiConfig, props: seq<Prop>): seq<Violation>
  {
    if props == [] || cfg.allowUnknown then []
    else
      var p := props[0];
      (if p.key in SchemaKeys(mode) then []
       else [MakeViolation([p.key], Label(p.key), UnknownKey, p.val)])
      + UnknownViolations(mode, cfg, props[1..])
  }

  /**
   * The validated copy of the input object: schema keys carry their
   * normalised value, unknown keys are kept only when allowed.
   */
  function Normalize(mode: Mode, cfg: JoiConfig, props: seq<Prop>): seq<Prop>
  {
    if props == [] then []
    else
      var init := Normalize(mode, cfg, props[..|props| - 1]);
      var p := props[|props| - 1];
      if p.key in SchemaKeys(mode) then
        match CheckField(mode, cfg, p.key, p.val)
        case Accept(v) => init + [Prop(p.key, v)]
        case Absent => init + [Prop(p.key, Undefined)]
        case Reject(_, _, _) => init
      else if cfg.allowUnknown then init + [p]
      else init
  }

  /** The defaults the create schema adds for missing keys, in schema order. */
  function Defaults(mode: Mode, props: seq<Prop>): seq<Prop>
  {
    if mode == Update then []
    else
      (if Get(props, "status") == Undefined then [Prop("status", Str(DefaultStatus))] else [])
      + (if Get(props, "priority") == Undefined then [Prop("priority", Str(DefaultPriority))] else [])
  }

  /** Every violation of an object body: schema keys first, then unknown keys. */
  function Errors(mode: Mode, cfg: JoiConfig, props: seq<Prop>): seq<Violation>
  {
    SchemaViolations(mode, cfg, props, SchemaKeys(mode)) + UnknownViolations(mode, cfg, props)
  }

  /** `schema.validate(data, { abortEarly: false })`: the normalised value or every violation. */
  function Validate(mode: Mode, cfg: JoiConfig, body: Value): (r: Result<seq<Prop>, seq<Violation>>)
    ensures r.Success? ==> body.Obj? && r.value == Output(mode, cfg, body.props)
    ensures r.Failure? ==> r.error != []
    ensures !body.Obj? ==> r.Failure? && |r.error| == 1 && r.error[0].kind == KindName(NotObject)
  {
    match body
    case Obj(props) =>
      if Errors(mode, cfg, props) == [] then Success(Normalize(mode, cfg, props) + Defaults(mode, props))
      else Failure(Errors(mode, cfg, props))
    case _ => Failure([MakeViolation([], Label("value"), NotObject, body)])
  }

  /**
   * `validateTask`: a validated task has a title, and a status and priority,
   * defaulted where the body has none.
   */
  function ValidateCreate(cfg: JoiConfig, body: Value): (r: Result<seq<Prop>, seq<Violation>>)
    ensures r.Success? ==> Get(r.value, "title").Str?
    ensures r.Success? ==> Get(r.value, "status") != Undefined && Get(r.value, "priority") != Undefined
  {
    var r := Validate(Create, cfg, body);
    if r.Success? then CreateOutput(cfg, body.props); r else r
  }

  /**
   * `validateTaskUpdate`: no defaults are added, and unless unknown keys are
   * let through, the validated update carries neither `id` nor `userId`.
   */
  function ValidateUpdate(cfg: JoiConfig, body: Value): (r: Result<seq<Prop>, seq<Violation>>)
    ensures r.Success? ==> body.Obj? && Get(r.value, "status") == Get(body.props, "status")
    ensures r.Success? ==> body.Obj? && Get(r.value, "priority") == Get(body.props, "priority")
    ensures r.Success? && !cfg.allowUnknown ==> !HasKey(r.value, "id") && !HasKey(r.value, "userId")
  {
    var r := Validate(Update, cfg, body);
    if r.Success? then UpdateOutput(cfg, body.props); r else r
  }

  predicate HasViolationAt(errors: seq<Violation>, key: string)
  {
    exists i :: 0 <= i < |errors| && errors[i].path == [key]
  }

  /** The types of the violations naming `key`, in the order they are reported. */
  function KindsAt(errors: seq<Violation>, key: string): seq<string>
  {
    if errors == [] then []
    else (if errors[0].path == [key] then [errors[0].kind] else []) + KindsAt(errors[1..], key)
  }

  // ---------------------------------------------------------------------------
  // Properties of validation

  lemma KeyViolationsAt(key: string, c: Check, k: string)
    ensures HasViolationAt(KeyViolations(key, c), k) <==> key == k && c.Reject?
  {
    if key == k && c.Reject? {
      assert KeyViolations(key, c)[0].path == [k];
    }
  }

  /** Schema violations are reported exactly for the schema keys whose rule rejects. */
  lemma {:induction false} SchemaViolationsExact(mode: Mode, cfg: JoiConfig, props: seq<Prop>, keys: seq<string>, key: string)
    ensures HasViolationAt(SchemaViolations(mode, cfg, props, keys), key)
        <==> key in keys && CheckField(mode, cfg, key, Get(props, key)).Reject?
  {
    if keys != [] {
      SchemaViolationsExact(mode, cfg, props, keys[1..], key);
      var c := CheckField(mode, cfg, keys[0], Get(props, keys[0]));
      KeyViolationsAt(keys[0], c, key);
      HasViolationAppend(KeyViolations(keys[0], c), SchemaViolations(mode, cfg, props, keys[1..]), key);
      assert key in keys <==> key == keys[0] || key in keys[1..];
    }
  }

  /** Without allowed unknowns, every property outside the schema is reported. */
  lemma {:induction false} UnknownViolationsExact(mode: Mode, cfg: JoiConfig, props: seq<Prop>, key: string)
    requires key !in SchemaKeys(mode)
    ensures HasViolationAt(UnknownViolations(mode, cfg, props), key) <==> !cfg.allowUnknown && HasKey(props, key)
  {
    if props != [] && !cfg.allowUnknown {
      UnknownViolationsExact(mode, cfg, props[1..], key);
      var p := props[0];
      var here := if p.key in SchemaKeys(mode) then []
        else [MakeViolation([p.key], Label(p.key), UnknownKey, p.val)];
      var rest := UnknownViolations(mode, cfg, props[1..]);
      assert UnknownViolations(mode, cfg, props) == here + rest;
      HasViolationAppend(here, rest, key);
      if p.key == key {
        assert here[0].path == [key];
      }
      HasKeyCons(props, key);
    }
  }

  lemma HasKeyCons(props: seq<Prop>, key: string)
    requires props != []
    ensures HasKey(props, key) <==> props[0].key == key || HasKey(props[1..], key)
  {
    if HasKey(props[1..], key) {
      var i :| 0 <= i < |props[1..]| && props[1..][i].key == key;
      assert props[i + 1].key == key;
    }
    if HasKey(props, key) && props[0].key != key {
      var i :| 0 <= i < |props| && props[i].key == key;
      assert props[1..][i - 1].key == key;
    }
  }

  lemma HasViolationAppend(a: seq<Violation>, b: seq<Violation>, key: string)
    ensures HasViolationAt(a + b, key) <==> HasViolationAt(a, key) || HasViolationAt(b, key)
  {
    if HasViolationAt(a, key) {
      var i :| 0 <= i < |a| && a[i].path == [key];
      assert (a + b)[i] == a[i];
    }
    if HasViolationAt(b, key) {
      var i :| 0 <= i < |b| && b[i].path == [key];
      assert (a + b)[|a| + i] == b[i];
    }
    if HasViolationAt(a + b, key) {
      var i :| 0 <= i < |a + b| && (a + b)[i].path == [key];
      if i < |a| { assert a[i] == (a + b)[i]; } else { assert b[i - |a|] == (a + b)[i]; }
    }
  }

  /**
   * Validation does not stop at the first problem: the violations of an object
   * body name exactly the schema keys whose rule rejects the value and, unless
   * unknown keys are allowed, every key outside the schema.
   */
  lemma ValidationCollectsAll(mode: Mode, cfg: JoiConfig, props: seq<Prop>, key: string)
    ensures key in SchemaKeys(mode) ==>
      (HasViolationAt(Errors(mode, cfg, props), key) <==> CheckField(mode, cfg, key, Get(props, key)).Reject?)
    ensures key !in SchemaKeys(mode) ==>
      (HasViolationAt(Errors(mode, cfg, props), key) <==> !cfg.allowUnknown && HasKey(props, key))
  {
    HasViolationAppend(SchemaViolations(mode, cfg, props, SchemaKeys(mode)), UnknownViolations(mode, cfg, props), key);
    SchemaViolationsExact(mode, cfg, props, SchemaKeys(mode), key);
    if key in SchemaKeys(mode) {
      UnknownViolationsSchemaKey(mode, cfg, props, key);
    } else {
      UnknownViolationsExact(mode, cfg, props, key);
    }
  }

  /** An unknown-key violation never names a schema key. */
  lemma {:induction false} UnknownViolationsSchemaKey(mode: Mode, cfg: JoiConfig, props: seq<Prop>, key: string)
    requires key in SchemaKeys(mode)
    ensures !HasViolationAt(UnknownViolations(mode, cfg, props), key)
  {
    if props != [] && !cfg.allowUnknown {
      var p := props[0];
      var here := if p.key in SchemaKeys(mode) then []
        else [MakeViolation([p.key], Label(p.key), UnknownKey, p.val)];
      assert UnknownViolations(mode, cfg, props) == here + UnknownViolations(mode, cfg, props[1..]);
      UnknownViolationsSchemaKey(mode, cfg, props[1..], key);
      HasViolationAppend(here, UnknownViolations(mode, cfg, props[1..]), key);
    }
  }

  /** Every violation of an object body names a single key. */
  lemma {:induction false} SchemaViolationPaths(mode: Mode, cfg: JoiConfig, props: seq<Prop>, keys: seq<string>, i: nat)
    requires i < |SchemaViolations(mode, cfg, props, keys)|
    ensures |SchemaViolations(mode, cfg, props, keys)[i].path| == 1
  {
    var here := KeyViolations(keys[0], CheckField(mode, cfg, keys[0], Get(props, keys[0])));
    assert SchemaViolations(mode, cfg, props, keys) == here + SchemaViolations(mode, cfg, props, keys[1..]);
    if i >= |here| {
      SchemaViolationPaths(mode, cfg, props, keys[1..], i - |here|);
    }
  }

  lemma {:induction false} UnknownViolationPaths(mode: Mode, cfg: JoiConfig, props: seq<Prop>, i: nat)
    requires i < |UnknownViolations(mode, cfg, props)|
    ensures |UnknownViolations(mode, cfg, props)[i].path| == 1
  {
    var p := props[0];
    var rest := UnknownViolations(mode, cfg, props[1..]);
    if p.key in SchemaKeys(mode) {
      assert UnknownViolations(mode, cfg, props) == rest;
      UnknownViolationPaths(mode, cfg, props[1..], i);
    } else {
      var v := MakeViolation([p.key], Label(p.key), UnknownKey, p.val);
      assert UnknownViolations(mode, cfg, props) == [v] + rest;
      if i > 0 {
        UnknownViolationPaths(mode, cfg, props[1..], i - 1);
      }
    }
  }

  /** No schema key's rule rejects the value under it. */
  predicate SchemaAccepts(mode: Mode, cfg: JoiConfig, props: seq<Prop>)
  {
    forall k :: k in SchemaKeys(mode) ==> !CheckField(mode, cfg, k, Get(props, k)).Reject?
  }

  /** Every property of the body is a schema key. */
  predicate OnlySchemaKeys(mode: Mode, props: seq<Prop>)
  {
    forall i :: 0 <= i < |props| ==> props[i].key in SchemaKeys(mode)
  }

  /** A body passes exactly when no schema key is rejected and no unknown key is refused. */
  lemma SucceedsIff(mode: Mode, cfg: JoiConfig, props: seq<Prop>)
    ensures Validate(mode, cfg, Obj(props)).Success? <==>
      SchemaAccepts(mode, cfg, props) && (cfg.allowUnknown || OnlySchemaKeys(mode, props))
  {
    var e := Errors(mode, cfg, props);
    if e != [] {
      FailureHasCause(mode, cfg, props);
    } else {
      forall k | k in SchemaKeys(mode) ensures !CheckField(mode, cfg, k, Get(props, k)).Reject? {
        ValidationCollectsAll(mode, cfg, props, k);
      }
      if !cfg.allowUnknown {
        forall i | 0 <= i < |props| ensures props[i].key in SchemaKeys(mode) {
          ValidationCollectsAll(mode, cfg, props, props[i].key);
        }
      }
    }
  }

  lemma FailureHasCause(mode: Mode, cfg: JoiConfig, props: seq<Prop>)
    requires Errors(mode, cfg, props) != []
    ensures !SchemaAccepts(mode, cfg, props) || (!cfg.allowUnknown && !OnlySchemaKeys(mode, props))
  {
    var e := Errors(mode, cfg, props);
    var s := SchemaViolations(mode, cfg, props, SchemaKeys(mode));
    if s != [] {
      SchemaViolationPaths(mode, cfg, props, SchemaKeys(mode), 0);
      assert e[0] == s[0];
    } else {
      UnknownViolationPaths(mode, cfg, props, 0);
      assert e == UnknownViolations(mode, cfg, props);
    }
    var k := e[0].path[0];
    assert e[0].path == [k];
    ValidationCollectsAll(mode, cfg, props, k);
    if k !in SchemaKeys(mode) {
      var i :| 0 <= i < |props| && props[i].key == k;
    }
  }

  // Each key's rule, stated without reference to how it is checked.

  /** A title: a string with something besides white space, at most 255 code units once trimmed; optional on update. */
  predicate TitleOk(mode: Mode, v: Value)
  {
    (mode == Update && v == Undefined) || (v.Str? && Trim(v.s) != "" && JsLength(Trim(v.s)) <= MaxTitleLength)
  }

  predicate DescriptionOk(v: Value)
  {
    v == Undefined || (v.Str? && JsLength(Trim(v.s)) <= MaxDescriptionLength)
  }

  predicate OneOf(allowed: seq<string>, v: Value)
  {
    v == Undefined || (v.Str? && v.s in allowed)
  }

  predicate DueDateOk(cfg: JoiConfig, v: Value)
  {
    v == Undefined || v == Null || cfg.parseIsoDate(v).Some?
  }

  predicate UserIdOk(v: Value)
  {
    v == Undefined || (v.Str? && v.s != "")
  }

  /** A title violation is reported exactly when the title breaks the title rule. */
  lemma TitleRule(mode: Mode, cfg: JoiConfig, props: seq<Prop>)
    ensures HasViolationAt(Errors(mode, cfg, props), "title") <==> !TitleOk(mode, Get(props, "title"))
  {
    ValidationCollectsAll(mode, cfg, props, "title");
    assert CheckField(mode, cfg, "title", Get(props, "title")) == CheckTitle(mode, Get(props, "title"));
  }

  /** A description violation is reported exactly when it is not a string of at most 1000 code units once trimmed. */
  lemma DescriptionRule(mode: Mode, cfg: JoiConfig, props: seq<Prop>)
    ensures HasViolationAt(Errors(mode, cfg, props), "description") <==> !DescriptionOk(Get(props, "description"))
  {
    ValidationCollectsAll(mode, cfg, props, "description");
    var d := Get(props, "description");
    assert CheckField(mode, cfg, "description", d) == CheckDescription(d);
    if d.Str? && Trim(d.s) == "" {
      assert JsLength(Trim(d.s)) == 0;
    }
  }

  /** Status and priority violations are reported exactly for values outside their sets. */
  lemma EnumRules(mode: Mode, cfg: JoiConfig, props: seq<Prop>)
    ensures HasViolationAt(Errors(mode, cfg, props), "status") <==> !OneOf(Statuses, Get(props, "status"))
    ensures HasViolationAt(Errors(mode, cfg, props), "priority") <==> !OneOf(Priorities, Get(props, "priority"))
  {
    ValidationCollectsAll(mode, cfg, props, "status");
    ValidationCollectsAll(mode, cfg, props, "priority");
    assert CheckField(mode, cfg, "status", Get(props, "status")) == CheckEnum(Statuses, Get(props, "status"));
    assert CheckField(mode, cfg, "priority", Get(props, "priority")) == CheckEnum(Priorities, Get(props, "priority"));
  }

  /** A due-date violation is reported exactly for a value that is neither `null` nor an ISO-8601 date. */
  lemma DueDateRule(mode: Mode, cfg: JoiConfig, props: seq<Prop>)
    ensures HasViolationAt(Errors(mode, cfg, props), "dueDate") <==> !DueDateOk(cfg, Get(props, "dueDate"))
  {
    ValidationCollectsAll(mode, cfg, props, "dueDate");
    assert CheckField(mode, cfg, "dueDate", Get(props, "dueDate")) == CheckDueDate(cfg, Get(props, "dueDate"));
  }

  /**
   * The details of a status or priority: none for an allowed or missing
   * value; otherwise `any.only`, followed by `string.base` for a value that
   * is not a string and by `string.empty` for the empty string.
   */
  lemma EnumDetails(mode: Mode, cfg: JoiConfig, props: seq<Prop>)
    ensures KindsAt(Errors(mode, cfg, props), "status") == EnumKinds(Statuses, Get(props, "status"))
    ensures KindsAt(Errors(mode, cfg, props), "priority") == EnumKinds(Priorities, Get(props, "priority"))
  {
    EnumDetailsAt(mode, cfg, props, "status", Statuses);
    EnumDetailsAt(mode, cfg, props, "priority", Priorities);
  }

  lemma EnumDetailsAt(mode: Mode, cfg: JoiConfig, props: seq<Prop>, key: string, allowed: seq<string>)
    requires (key == "status" && allowed == Statuses) || (key == "priority" && allowed == Priorities)
    ensures KindsAt(Errors(mode, cfg, props), key) == EnumKinds(allowed, Get(props, key))
  {
    ErrorsKindsAt(mode, cfg, props, key);
    assert CheckField(mode, cfg, key, Get(props, key)) == CheckEnum(allowed, Get(props, key));
    EnumCheckKinds(allowed, Get(props, key));
  }

  lemma EnumCheckKinds(allowed: seq<string>, v: Value)
    ensures CheckKinds(CheckEnum(allowed, v)) == EnumKinds(allowed, v)
  {
  }

  /** The detail types a status or priority value earns. */
  function EnumKinds(allowed: seq<string>, v: Value): seq<string>
  {
    if OneOf(allowed, v) then []
    else if !v.Str? then ["any.only", "string.base"]
    else if v.s == "" then ["any.only", "string.empty"]
    else ["any.only"]
  }

  /**
   * The details of a due date: none for a missing, `null` or ISO value;
   * otherwise one, `date.format` for a string and `date.base` for anything else.
   */
  lemma DueDateDetails(mode: Mode, cfg: JoiConfig, props: seq<Prop>)
    ensures var v := Get(props, "dueDate");
      KindsAt(Errors(mode, cfg, props), "dueDate")
        == if DueDateOk(cfg, v) then [] else if v.Str? then ["date.format"] else ["date.base"]
  {
    ErrorsKindsAt(mode, cfg, props, "dueDate");
    assert CheckField(mode, cfg, "dueDate", Get(props, "dueDate")) == CheckDueDate(cfg, Get(props, "dueDate"));
    DueDateCheckKinds(cfg, Get(props, "dueDate"));
  }

  lemma DueDateCheckKinds(cfg: JoiConfig, v: Value)
    ensures CheckKinds(CheckDueDate(cfg, v))
      == if DueDateOk(cfg, v) then [] else if v.Str? then ["date.format"] else ["date.base"]
  {
  }

  /** The detail types of one rule's outcome. */
  function CheckKinds(c: Check): seq<string>
  {
    if c.Reject? then [KindName(c.kind)] + (if c.follow.Some? then [KindName(c.follow.value)] else []) else []
  }

  /** The details naming a schema key are exactly those its own rule produced. */
  lemma ErrorsKindsAt(mode: Mode, cfg: JoiConfig, props: seq<Prop>, key: string)
    requires key in SchemaKeys(mode)
    ensures KindsAt(Errors(mode, cfg, props), key) == CheckKinds(CheckField(mode, cfg, key, Get(props, key)))
  {
    var keys := SchemaKeys(mode);
    assert forall i, j :: 0 <= i < j < |keys| ==> keys[i] != keys[j];
    KindsAtAppend(SchemaViolations(mode, cfg, props, keys), UnknownViolations(mode, cfg, props), key);
    SchemaKindsAt(mode, cfg, props, keys, key);
    UnknownKindsAt(mode, cfg, props, key);
  }

  lemma {:induction false} KindsAtAppend(a: seq<Violation>, b: seq<Violation>, key: string)
    ensures KindsAt(a + b, key) == KindsAt(a, key) + KindsAt(b, key)
  {
    if a == [] {
      assert a + b == b;
    } else {
      assert (a + b)[0] == a[0] && (a + b)[1..] == a[1..] + b;
      KindsAtAppend(a[1..], b, key);
    }
  }

  lemma KindsAtKey(key: string, c: Check, k: string)
    ensures KindsAt(KeyViolations(key, c), k) == if key == k then CheckKinds(c) else []
  {
    if c.Reject? {
      var vs := KeyViolations(key, c);
      var first := MakeViolation([key], Label(key), c.kind, c.value);
      assert first.path == [key] && first.kind == KindName(c.kind);
      assert [key] == [k] <==> key == k;
      if c.follow.Some? {
        var second := MakeViolation([key], Label(key), c.follow.value, c.value);
        assert vs == [first, second] && vs[1..] == [second] && vs[1..][1..] == [];
        assert KindsAt(vs[1..], k) == (if key == k then [KindName(c.follow.value)] else []);
      } else {
        assert vs == [first] && vs[1..] == [];
      }
      assert KindsAt(vs, k) == (if key == k then [first.kind] else []) + KindsAt(vs[1..], k);
    }
  }

  /** Over distinct keys, a key's details come from its own rule alone. */
  lemma {:induction false} SchemaKindsAt(mode: Mode, cfg: JoiConfig, props: seq<Prop>, keys: seq<string>, key: string)
    requires forall i, j :: 0 <= i < j < |keys| ==> keys[i] != keys[j]
    ensures KindsAt(SchemaViolations(mode, cfg, props, keys), key)
      == if key in keys then CheckKinds(CheckField(mode, cfg, key, Get(props, key))) else []
  {
    if keys != [] {
      var c := CheckField(mode, cfg, keys[0], Get(props, keys[0]));
      KindsAtAppend(KeyViolations(keys[0], c), SchemaViolations(mode, cfg, props, keys[1..]), key);
      KindsAtKey(keys[0], c, key);
      assert forall i, j :: 0 <= i < j < |keys[1..]| ==> keys[1..][i] != keys[1..][j] by {
        forall i, j | 0 <= i < j < |keys[1..]| ensures keys[1..][i] != keys[1..][j] {
          assert keys[1..][i] == keys[i + 1] && keys[1..][j] == keys[j + 1];
        }
      }
      SchemaKindsAt(mode, cfg, props, keys[1..], key);
      if key == keys[0] {
        assert key !in keys[1..] by {
          forall i | 0 <= i < |keys[1..]| ensures keys[1..][i] != key {
            assert keys[1..][i] == keys[i + 1];
          }
        }
      }
      assert key in keys <==> key == keys[0] || key in keys[1..];
    }
  }

  /** An unknown-key violation adds no detail to a schema key. */
  lemma {:induction false} UnknownKindsAt(mode: Mode, cfg: JoiConfig, props: seq<Prop>, key: string)
    requires key in SchemaKeys(mode)
    ensures KindsAt(UnknownViolations(mode, cfg, props), key) == []
  {
    if props != [] && !cfg.allowUnknown {
      var p := props[0];
      var here := if p.key in SchemaKeys(mode) then []
        else [MakeViolation([p.key], Label(p.key), UnknownKey, p.val)];
      assert UnknownViolations(mode, cfg, props) == here + UnknownViolations(mode, cfg, props[1..]);
      KindsAtAppend(here, UnknownViolations(mode, cfg, props[1..]), key);
      UnknownKindsAt(mode, cfg, props[1..], key);
      if here != [] {
        assert here[1..] == [];
      }
    }
  }

  /** `userId` is checked on create; on update it is an unknown key. */
  lemma UserIdRule(mode: Mode, cfg: JoiConfig, props: seq<Prop>)
    ensures mode == Create ==>
      (HasViolationAt(Errors(mode, cfg, props), "userId") <==> !UserIdOk(Get(props, "userId")))
    ensures mode == Update ==>
      (HasViolationAt(Errors(mode, cfg, props), "userId") <==> !cfg.allowUnknown && HasKey(props, "userId"))
  {
    ValidationCollectsAll(mode, cfg, props, "userId");
    if mode == Create {
      assert CheckField(mode, cfg, "userId", Get(props, "userId")) == CheckUserId(Get(props, "userId"));
    } else {
      assert "userId" !in SchemaKeys(mode);
    }
  }

  /** Without violations, no schema key's rule rejects. */
  lemma AcceptedAt(mode: Mode, cfg: JoiConfig, props: seq<Prop>, key: string)
    requires Errors(mode, cfg, props) == []
    requires key in SchemaKeys(mode)
    ensures !CheckField(mode, cfg, key, Get(props, key)).Reject?
  {
    ValidationCollectsAll(mode, cfg, props, key);
  }

  /** The value a rule leaves in the validated object: the accepted value, else `undefined`. */
  function Kept(c: Check): Value
  {
    if c.Accept? then c.value else Undefined
  }

  lemma GetSkipsOther(props: seq<Prop>, p: Prop, key: string)
    requires p.key != key
    ensures Get(props + [p], key) == Get(props, key)
  {
    assert (props + [p])[..|props + [p]| - 1] == props;
  }

  lemma GetLast(props: seq<Prop>, p: Prop)
    ensures Get(props + [p], p.key) == p.val
  {
  }

  /** Under a schema key, the validated object holds what that key's rule made of the input. */
  lemma {:induction false} NormalizeGet(mode: Mode, cfg: JoiConfig, props: seq<Prop>, key: string)
    requires key in SchemaKeys(mode)
    requires !CheckField(mode, cfg, key, Get(props, key)).Reject?
    ensures Get(Normalize(mode, cfg, props), key) == Kept(CheckField(mode, cfg, key, Get(props, key)))
  {
    if props == [] {
      assert Kept(CheckField(mode, cfg, key, Undefined)) == Undefined;
    } else {
      var init := props[..|props| - 1];
      var p := props[|props| - 1];
      var n := Normalize(mode, cfg, init);
      if p.key == key {
        assert Get(props, key) == p.val;
        var c := CheckField(mode, cfg, key, p.val);
        match c
        case Accept(v) =>
          assert Normalize(mode, cfg, props) == n + [Prop(key, v)];
          GetLast(n, Prop(key, v));
        case Absent =>
          assert Normalize(mode, cfg, props) == n + [Prop(key, Undefined)];
          GetLast(n, Prop(key, Undefined));
      } else {
        assert Get(props, key) == Get(init, key);
        NormalizeGet(mode, cfg, init, key);
        NormalizeOther(mode, cfg, props, key);
      }
    }
  }

  /** A last property under another key leaves what the validated object holds under `key`. */
  lemma NormalizeOther(mode: Mode, cfg: JoiConfig, props: seq<Prop>, key: string)
    requires props != [] && props[|props| - 1].key != key
    ensures Get(Normalize(mode, cfg, props), key) == Get(Normalize(mode, cfg, props[..|props| - 1]), key)
  {
    var n := Normalize(mode, cfg, props[..|props| - 1]);
    var r := Normalize(mode, cfg, props);
    assert r == n || (r == n + [r[|r| - 1]] && r[|r| - 1].key == props[|props| - 1].key);
    if r != n {
      GetSkipsOther(n, r[|r| - 1], key);
    }
  }

  lemma {:induction false} GetAppendAbsent(a: seq<Prop>, b: seq<Prop>, key: string)
    requires forall i :: 0 <= i < |b| ==> b[i].key != key
    ensures Get(a + b, key) == Get(a, key)
    decreases |b|
  {
    if b == [] {
      assert a + b == a;
    } else {
      var init := b[..|b| - 1];
      assert (a + b)[..|a + b| - 1] == a + init;
      assert (a + b)[|a + b| - 1] == b[|b| - 1];
      assert forall i :: 0 <= i < |init| ==> init[i] == b[i];
      GetAppendAbsent(a, init, key);
    }
  }

  /** The validated object of a body without violations. */
  function Output(mode: Mode, cfg: JoiConfig, props: seq<Prop>): seq<Prop>
  {
    Normalize(mode, cfg, props) + Defaults(mode, props)
  }

  lemma ValidateSuccess(mode: Mode, cfg: JoiConfig, props: seq<Prop>)
    ensures Validate(mode, cfg, Obj(props)).Success? <==> Errors(mode, cfg, props) == []
    ensures Validate(mode, cfg, Obj(props)).Success? ==> Validate(mode, cfg, Obj(props)).value == Output(mode, cfg, props)
  {
  }

  /** Outside status and priority, the validated object holds what the key's rule made of the input. */
  lemma ValueAt(mode: Mode, cfg: JoiConfig, props: seq<Prop>, key: string)
    requires key in SchemaKeys(mode) && key != "status" && key != "priority"
    requires !CheckField(mode, cfg, key, Get(props, key)).Reject?
    ensures Get(Output(mode, cfg, props), key) == Kept(CheckField(mode, cfg, key, Get(props, key)))
  {
    NormalizeGet(mode, cfg, props, key);
    DefaultsKeys(mode, props, key);
    GetAppendAbsent(Normalize(mode, cfg, props), Defaults(mode, props), key);
  }

  lemma DefaultsKeys(mode: Mode, props: seq<Prop>, key: string)
    requires key != "status" && key != "priority"
    ensures forall i :: 0 <= i < |Defaults(mode, props)| ==> Defaults(mode, props)[i].key != key
  {
  }

  /** Under status or priority, normalisation keeps the input's value. */
  lemma NormalizedEnum(mode: Mode, cfg: JoiConfig, props: seq<Prop>, key: string)
    requires key == "status" || key == "priority"
    requires !CheckField(mode, cfg, key, Get(props, key)).Reject?
    ensures Get(Normalize(mode, cfg, props), key) == Get(props, key)
  {
    var v := Get(props, key);
    assert CheckField(mode, cfg, key, v) == CheckEnum(if key == "status" then Statuses else Priorities, v);
    NormalizeGet(mode, cfg, props, key);
  }

  /** The create defaults supply status and priority exactly where the input has none. */
  lemma DefaultsGetEnum(mode: Mode, props: seq<Prop>, n: seq<Prop>, key: string, default: string)
    requires (key == "status" && default == DefaultStatus) || (key == "priority" && default == DefaultPriority)
    ensures Get(n + Defaults(mode, props), key)
         == if mode == Create && Get(props, key) == Undefined then Str(default) else Get(n, key)
  {
    var st := if mode == Create && Get(props, "status") == Undefined then [Prop("status", Str(DefaultStatus))] else [];
    var pr := if mode == Create && Get(props, "priority") == Undefined then [Prop("priority", Str(DefaultPriority))] else [];
    assert Defaults(mode, props) == st + pr;
    assert n + Defaults(mode, props) == (n + st) + pr;
    if key == "status" {
      GetAppendAbsent(n + st, pr, key);
      if st != [] { GetLast(n, st[0]); } else { assert n + st == n; }
    } else {
      if pr != [] { GetLast(n + st, pr[0]); } else { assert (n + st) + pr == n + st; }
      GetAppendAbsent(n, st, key);
    }
  }

  /** Status and priority as validated: the input's value, or on create the default when missing. */
  lemma EnumValueAt(mode: Mode, cfg: JoiConfig, props: seq<Prop>, key: string, default: string)
    requires !CheckField(mode, cfg, key, Get(props, key)).Reject?
    requires (key == "status" && default == DefaultStatus) || (key == "priority" && default == DefaultPriority)
    ensures Get(Output(mode, cfg, props), key)
         == if mode == Create && Get(props, key) == Undefined then Str(default) else Get(props, key)
  {
    NormalizedEnum(mode, cfg, props, key);
    DefaultsGetEnum(mode, props, Normalize(mode, cfg, props), key, default);
  }

  /** What the title rule keeps of an accepted value. */
  lemma TitleKept(mode: Mode, cfg: JoiConfig, t: Value)
    requires !CheckField(mode, cfg, "title", t).Reject?
    ensures Kept(CheckField(mode, cfg, "title", t)) == (if t.Str? then Str(Trim(t.s)) else Undefined)
  {
    assert CheckField(mode, cfg, "title", t) == CheckTitle(mode, t);
  }

  lemma DescriptionKept(mode: Mode, cfg: JoiConfig, d: Value)
    requires !CheckField(mode, cfg, "description", d).Reject?
    ensures Kept(CheckField(mode, cfg, "description", d)) == (if d.Str? then Str(Trim(d.s)) else Undefined)
  {
    assert CheckField(mode, cfg, "description", d) == CheckDescription(d);
  }

  lemma DueDateKept(mode: Mode, cfg: JoiConfig, due: Value)
    requires !CheckField(mode, cfg, "dueDate", due).Reject?
    ensures if due.Undefined? || due.Null? then Kept(CheckField(mode, cfg, "dueDate", due)) == due
      else cfg.parseIsoDate(due).Some? && Kept(CheckField(mode, cfg, "dueDate", due)) == DateObj(cfg.parseIsoDate(due).value)
  {
    assert CheckField(mode, cfg, "dueDate", due) == CheckDueDate(cfg, due);
  }

  lemma UserIdKept(cfg: JoiConfig, u: Value)
    requires !CheckField(Create, cfg, "userId", u).Reject?
    ensures Kept(CheckField(Create, cfg, "userId", u)) == u
  {
    assert CheckField(Create, cfg, "userId", u) == CheckUserId(u);
  }

  /**
   * What a successful validation yields: the title and description trimmed,
   * status and priority as given (defaulted to `pending` and `medium` on
   * create only), the due date as a `Date`, the user id untouched.
   */
  lemma ValidatedValue(mode: Mode, cfg: JoiConfig, props: seq<Prop>)
    requires Validate(mode, cfg, Obj(props)).Success?
    ensures var out := Validate(mode, cfg, Obj(props)).value;
      var t, d, due := Get(props, "title"), Get(props, "description"), Get(props, "dueDate");
      && Get(out, "title") == (if t.Str? then Str(Trim(t.s)) else Undefined)
      && Get(out, "description") == (if d.Str? then Str(Trim(d.s)) else Undefined)
      && Get(out, "status") == (if mode == Create && Get(props, "status") == Undefined then Str(DefaultStatus) else Get(props, "status"))
      && Get(out, "priority") == (if mode == Create && Get(props, "priority") == Undefined then Str(DefaultPriority) else Get(props, "priority"))
      && (if due.Undefined? || due.Null? then Get(out, "dueDate") == due
          else cfg.parseIsoDate(due).Some? && Get(out, "dueDate") == DateObj(cfg.parseIsoDate(due).value))
      && (mode == Create ==> Get(out, "userId") == Get(props, "userId"))
  {
    ValidateSuccess(mode, cfg, props);
    AcceptedAt(mode, cfg, props, "title");
    AcceptedAt(mode, cfg, props, "description");
    AcceptedAt(mode, cfg, props, "dueDate");
    AcceptedAt(mode, cfg, props, "status");
    AcceptedAt(mode, cfg, props, "priority");
    ValueAt(mode, cfg, props, "title");
    TitleKept(mode, cfg, Get(props, "title"));
    ValueAt(mode, cfg, props, "description");
    DescriptionKept(mode, cfg, Get(props, "description"));
    ValueAt(mode, cfg, props, "dueDate");
    DueDateKept(mode, cfg, Get(props, "dueDate"));
    EnumValueAt(mode, cfg, props, "status", DefaultStatus);
    EnumValueAt(mode, cfg, props, "priority", DefaultPriority);
    if mode == Create {
      AcceptedAt(mode, cfg, props, "userId");
      ValueAt(mode, cfg, props, "userId");
      UserIdKept(cfg, Get(props, "userId"));
    }
  }

  lemma {:induction false} NormalizeKeys(mode: Mode, cfg: JoiConfig, props: seq<Prop>)
    requires !cfg.allowUnknown
    ensures forall i :: 0 <= i < |Normalize(mode, cfg, props)| ==> Normalize(mode, cfg, props)[i].key in SchemaKeys(mode)
  {
    if props != [] {
      NormalizeKeys(mode, cfg, props[..|props| - 1]);
    }
  }

  /** Unless unknown keys are let through, the validated object holds schema keys only. */
  lemma OutputKeys(mode: Mode, cfg: JoiConfig, props: seq<Prop>)
    requires !cfg.allowUnknown
    ensures forall i :: 0 <= i < |Output(mode, cfg, props)| ==> Output(mode, cfg, props)[i].key in SchemaKeys(mode)
    ensures !HasKey(Output(mode, cfg, props), "id")
  {
    NormalizeKeys(mode, cfg, props);
  }

  /** What a successful create validation guarantees of its value. */
  lemma CreateOutput(cfg: JoiConfig, props: seq<Prop>)
    requires Validate(Create, cfg, Obj(props)).Success?
    ensures var out := Validate(Create, cfg, Obj(props)).value;
      Get(out, "title").Str? && Get(out, "status") != Undefined && Get(out, "priority") != Undefined
  {
    ValidatedValue(Create, cfg, props);
    ValidateSuccess(Create, cfg, props);
    AcceptedAt(Create, cfg, props, "title");
    assert CheckField(Create, cfg, "title", Get(props, "title")) == CheckTitle(Create, Get(props, "title"));
  }

  /** What a successful update validation guarantees of its value. */
  lemma UpdateOutput(cfg: JoiConfig, props: seq<Prop>)
    requires Validate(Update, cfg, Obj(props)).Success?
    ensures var out := Validate(Update, cfg, Obj(props)).value;
      && Get(out, "status") == Get(props, "status") && Get(out, "priority") == Get(props, "priority")
      && (!cfg.allowUnknown ==> !HasKey(out, "id") && !HasKey(out, "userId"))
  {
    ValidatedValue(Update, cfg, props);
    if !cfg.allowUnknown {
      OutputKeys(Update, cfg, props);
    }
  }

  /** A rule given nothing to check leaves the key absent, except a title on create. */
  lemma UndefinedAccepted(mode: Mode, cfg: JoiConfig, key: string)
    requires key in SchemaKeys(mode) && !(mode == Create && key == "title")
    ensures CheckField(mode, cfg, key, Undefined) == Absent
  {
  }

  lemma {:induction false} NormalizeUnknownOnly(mode: Mode, cfg: JoiConfig, props: seq<Prop>)
    requires forall i :: 0 <= i < |props| ==> props[i].key !in SchemaKeys(mode)
    ensures Normalize(mode, cfg, props) == if cfg.allowUnknown then props else []
  {
    if props != [] {
      var init := props[..|props| - 1];
      assert forall i :: 0 <= i < |init| ==> init[i] == props[i];
      NormalizeUnknownOnly(mode, cfg, init);
      assert init + [props[|props| - 1]] == props;
    }
  }

  /**
   * The update schema has no defaults and no `userId`: a body without any of
   * its five keys validates to an empty value, unless unknown keys are let
   * through, in which case it validates to itself.
   */
  lemma UpdateWithoutSchemaFields(cfg: JoiConfig, props: seq<Prop>)
    requires forall i :: 0 <= i < |props| ==> props[i].key !in SchemaKeys(Update)
    ensures ValidateUpdate(cfg, Obj(props)).Success? <==> cfg.allowUnknown || props == []
    ensures ValidateUpdate(cfg, Obj(props)).Success? ==>
      ValidateUpdate(cfg, Obj(props)).value == if cfg.allowUnknown then props else []
  {
    SucceedsIff(Update, cfg, props);
    forall k | k in SchemaKeys(Update) ensures !CheckField(Update, cfg, k, Get(props, k)).Reject? {
      UndefinedAccepted(Update, cfg, k);
    }
    ValidateSuccess(Update, cfg, props);
    NormalizeUnknownOnly(Update, cfg, props);
    if !cfg.allowUnknown && props != [] {
      assert !OnlySchemaKeys(Update, props) by {
        assert props[0].key !in SchemaKeys(Update);
      }
    }
  }

  // ---------------------------------------------------------------------------
  // The entity

  /** The nine attributes of a task. */
  datatype TaskFields = TaskFields(
    id: Value, userId: Value, title: Value, description: Value, status: Value,
    priority: Value, dueDate: Value, createdAt: Value, updatedAt: Value)

  /**
   * The attributes `new Task(data)` assigns, where `created` and `updated`
   * stand for the timestamps it reads from the clock when `data` has none.
   */
  function Construct(data: Item, created: Value, updated: Value): (f: TaskFields)
    ensures f.id == Lookup(data, "id")
    ensures !Falsy(f.userId) && !Falsy(f.status) && !Falsy(f.priority)
    ensures !Falsy(created) && !Falsy(updated) ==> Settled(f)
    ensures Falsy(Lookup(data, "createdAt")) ==> f.createdAt == created
    ensures !Falsy(Lookup(data, "createdAt")) ==> f.createdAt == data["createdAt"]
    ensures Falsy(Lookup(data, "updatedAt")) ==> f.updatedAt == updated
    ensures !Falsy(Lookup(data, "updatedAt")) ==> f.updatedAt == data["updatedAt"]
  {
    TaskFields(
      Lookup(data, "id"),
      Or(Lookup(data, "userId"), Str(DefaultUserId)),
      Lookup(data, "title"),
      Lookup(data, "description"),
      Or(Lookup(data, "status"), Str(DefaultStatus)),
      Or(Lookup(data, "priority"), Str(DefaultPriority)),
      Lookup(data, "dueDate"),
      Or(Lookup(data, "createdAt"), created),
      Or(Lookup(data, "updatedAt"), updated))
  }

  /** `toDynamoItem`: one attribute per field, under the field's own name. */
  function ToItem(f: TaskFields): (item: Item)
    ensures item.Keys == {"id", "userId", "title", "description", "status", "priority", "dueDate", "createdAt", "updatedAt"}
  {
    map[
      "id" := f.id, "userId" := f.userId, "title" := f.title, "description" := f.description,
      "status" := f.status, "priority" := f.priority, "dueDate" := f.dueDate,
      "createdAt" := f.createdAt, "updatedAt" := f.updatedAt]
  }

  /** With both timestamps in the data, the values offered for missing ones are never used. */
  lemma ConstructStamped(data: Item, created: Value, updated: Value)
    requires !Falsy(Lookup(data, "createdAt")) && !Falsy(Lookup(data, "updatedAt"))
    ensures Construct(data, created, updated) == Construct(data, Undefined, Undefined)
  {
  }

  /** Each attribute of the item is the task's field of that name. */
  lemma ToItemFields(f: TaskFields)
    ensures var item := ToItem(f);
      && item["id"] == f.id && item["userId"] == f.userId && item["status"] == f.status
      && item["priority"] == f.priority && item["createdAt"] == f.createdAt && item["updatedAt"] == f.updatedAt
  {
  }

  /**
   * The constructor's defaults: a falsy `userId`, `status` or `priority`
   * becomes `default-user`, `pending` or `medium`, any other value is kept,
   * so a constructed task never has a falsy one.
   */
  lemma ConstructDefaults(data: Item, created: Value, updated: Value)
    ensures var f := Construct(data, created, updated);
      && (Falsy(Lookup(data, "userId")) ==> f.userId == Str(DefaultUserId))
      && (!Falsy(Lookup(data, "userId")) ==> f.userId == data["userId"])
      && (Falsy(Lookup(data, "status")) ==> f.status == Str(DefaultStatus))
      && (!Falsy(Lookup(data, "status")) ==> f.status == data["status"])
      && (Falsy(Lookup(data, "priority")) ==> f.priority == Str(DefaultPriority))
      && (!Falsy(Lookup(data, "priority")) ==> f.priority == data["priority"])
      && !Falsy(f.userId) && !Falsy(f.status) && !Falsy(f.priority)
  {
  }

  /** A task has no falsy default-carrying attribute or timestamp. */
  predicate Settled(f: TaskFields)
  {
    !Falsy(f.userId) && !Falsy(f.status) && !Falsy(f.priority) && !Falsy(f.createdAt) && !Falsy(f.updatedAt)
  }

  /**
   * `fromDynamoItem(t.toDynamoItem())` has the nine attributes of `t` when
   * none of the defaulted ones is falsy, and reads no clock; otherwise each
   * falsy one is replaced by its default.
   */
  lemma ItemRoundTrip(f: TaskFields, created: Value, updated: Value)
    ensures Settled(f) ==> Construct(ToItem(f), created, updated) == f
    ensures var g := Construct(ToItem(f), created, updated);
      g.userId == Or(f.userId, Str(DefaultUserId)) && g.createdAt == Or(f.createdAt, created)
  {
  }

  /** The value of `key` after `Object.assign(this, updates)`: the update's, else the old one. */
  function Pick(updates: seq<Prop>, key: string, current: Value): Value
  {
    if HasKey(updates, key) then Get(updates, key) else current
  }

  class Task {
    var id: Value
    var userId: Value
    var title: Value
    var description: Value
    var status: Value
    var priority: Value
    var dueDate: Value
    var createdAt: Value
    var updatedAt: Value

    function Fields(): TaskFields
      reads this
    {
      TaskFields(id, userId, title, description, status, priority, dueDate, createdAt, updatedAt)
    }

    /**
     * `new Task(data)`: the clock is read once for each missing timestamp,
     * `createdAt` first.
     */
    constructor (data: Item, clock: Clock)
      modifies clock
      ensures Fields() == Construct(data, createdAt, updatedAt)
      ensures old(clock.now) <= clock.now
      ensures Falsy(Lookup(data, "createdAt")) ==> createdAt.Instant? && old(clock.now) <= createdAt.ms <= clock.now
      ensures Falsy(Lookup(data, "updatedAt")) ==> updatedAt == Instant(clock.now)
      ensures Falsy(Lookup(data, "createdAt")) && Falsy(Lookup(data, "updatedAt")) ==> createdAt.ms <= updatedAt.ms
      ensures !Falsy(Lookup(data, "createdAt")) && !Falsy(Lookup(data, "updatedAt")) ==> clock.now == old(clock.now)
    {
      id := Lookup(data, "id");
      userId := Or(Lookup(data, "userId"), Str(DefaultUserId));
      title := Lookup(data, "title");
      description := Lookup(data, "description");
      status := Or(Lookup(data, "status"), Str(DefaultStatus));
      priority := Or(Lookup(data, "priority"), Str(DefaultPriority));
      dueDate := Lookup(data, "dueDate");
      var created := Lookup(data, "createdAt");
      if Falsy(created) {
        var ms := clock.Read();
        created := Instant(ms);
      }
      createdAt := created;
      var updated := Lookup(data, "updatedAt");
      if Falsy(updated) {
        var ms := clock.Read();
        updated := Instant(ms);
      }
      updatedAt := updated;
    }

    /**
     * `toDynamoItem`: every attribute under its own name, so that reading
     * the item back gives this task again, without a clock, when none of
     * its defaulted attributes is falsy.
     */
    function ToDynamoItem(): (item: Item)
      reads this
      ensures item.Keys == {"id", "userId", "title", "description", "status", "priority", "dueDate", "createdAt", "updatedAt"}
      ensures Settled(Fields()) ==> Construct(item, Undefined, Undefined) == Fields()
    {
      ItemRoundTrip(Fields(), Undefined, Undefined);
      ToItem(Fields())
    }

    /** `fromDynamoItem`: a new task over the item's attributes. */
    static method FromDynamoItem(item: Item, clock: Clock) returns (t: Task)
      modifies clock
      ensures fresh(t)
      ensures t.Fields() == Construct(item, t.createdAt, t.updatedAt)
      ensures old(clock.now) <= clock.now
      ensures Settled(Construct(item, Undefined, Undefined)) ==> t.Fields() == Construct(item, Undefined, Undefined)
    {
      t := new Task(item, clock);
    }

    /**
     * `update`: copies only title, description, status, priority and
     * dueDate from `updates` and stamps `updatedAt` with a fresh reading.
     */
    method Update(updates: seq<Prop>, clock: Clock)
      modifies this, clock
      ensures title == Pick(updates, "title", old(title))
      ensures description == Pick(updates, "description", old(description))
      ensures status == Pick(updates, "status", old(status))
      ensures priority == Pick(updates, "priority", old(priority))
      ensures dueDate == Pick(updates, "dueDate", old(dueDate))
      ensures id == old(id) && userId == old(userId) && createdAt == old(createdAt)
      ensures old(clock.now) <= clock.now && updatedAt == Instant(clock.now)
    {
      title := Pick(updates, "title", title);
      description := Pick(updates, "description", description);
      status := Pick(updates, "status", status);
      priority := Pick(updates, "priority", priority);
      dueDate := Pick(updates, "dueDate", dueDate);
      var ms := clock.Read();
      updatedAt := Instant(ms);
    }
  }
}
