/**
 * The per-task field derivation of `create_tasks_from_template`: how one
 * template entry and the run's parameters become the create-task request that
 * is posted, and the exceptions that derivation can raise.
 */
module FieldDeriver {
  import opened Wrappers
  import opened JsonValues
  import opened Text
  import opened IsoTime

  /** The due date an entry without one is given, in the template and at replay. */
  const DefaultDueDate := "2024-12-31T23:59:59Z"
  const DefaultDuration := 30
  /** The schedule named when auto-scheduling is on and no schedule was picked. */
  const DefaultSchedule := "Work Hours"
  const DeadlineType := "SOFT"

  /** The five keys every request carries. */
  const RequiredKeys: set<string> := {"name", "workspaceId", "dueDate", "duration", "priority"}

  /** The Python exceptions that can escape the replay loop and end the run. */
  datatype Error =
    | KeyError(key: string)  // `entry["name"]` or `entry["priority"]` on an entry without that key
    | AttributeError         // `.get` on an entry that is not an object, `.replace` on a dueDate that is not a string
    | TypeError              // `in` or `[]` on a template root, or `enumerate` on a task list, of the wrong kind
    | OverflowError          // `timedelta(days=n)` too large, or the shifted date outside years 1..9999

  /**
   * Everything fixed for one replay: `workspace["id"]`, the day offset, what
   * project creation returned (JNull for None), the chosen schedule's name
   * (JNull for none) and the auto-schedule answer.
   */
  datatype RunParams = RunParams(
    workspaceId: Json,
    delta: int,
    projectId: Json,
    schedule: Json,
    autoschedule: bool)

  /**
   * The two `datetime.utcnow()` readings that processing one entry may take:
   * the due-date fallback and the auto-schedule start. Both are naive.
   */
  datatype Now = Now(fallback: DateTime, start: DateTime)

  datatype AutoSchedule = AutoSchedule(startDate: string, deadlineType: string, schedule: Json)

  /** A create-task request: absent optional fields are None, never null. */
  datatype TaskRequest = TaskRequest(
    name: Json,
    workspaceId: Json,
    dueDate: string,
    duration: Json,
    priority: Json,
    projectId: Option<Json>,
    autoScheduled: Option<AutoSchedule>)

  /** What `datetime.utcnow()` returns: a valid value without an offset. */
  predicate NaiveUtc(t: DateTime) {
    Valid(t) && t.offset.None?
  }

  /**
   * The request's dueDate: the entry's date (or the default) read after `Z` is
   * turned into `+00:00`, shifted by delta days and serialized; the fallback
   * reading, unshifted, when the text does not parse.
   */
  function DueDate(entry: map<string, Json>, delta: int, fallback: DateTime): Result<string, Error> {
    match Get(entry, "dueDate", JString(DefaultDueDate))
    case JString(text) =>
      (match ReadIso(text)
       case None => Ok(Serialize(fallback))
       case Some(t) =>
         match AddDays(t, delta)
         case None => Err(OverflowError)
         case Some(shifted) => Ok(Serialize(shifted)))
    case _ => Err(AttributeError)
  }

  /** The autoScheduled block: a picked schedule first, else the flag with "Work Hours", else none. */
  function AutoScheduled(p: RunParams, start: DateTime): Option<AutoSchedule> {
    if Truthy(p.schedule) then Some(AutoSchedule(Serialize(start), DeadlineType, p.schedule))
    else if p.autoschedule then Some(AutoSchedule(Serialize(start), DeadlineType, JString(DefaultSchedule)))
    else None
  }

  /**
   * The request for one template entry, or the exception its processing raises.
   * The due date is worked out first, then the dict is built.
   */
  function Derive(entry: Json, p: RunParams, now: Now): Result<TaskRequest, Error> {
    if !entry.JObject? then Err(AttributeError)
    else
      var due :- DueDate(entry.fields, p.delta, now.fallback);
      Assemble(entry.fields, due, p, now.start)
  }

  /**
   * The request built around a worked-out due date: `name` is looked up before
   * `priority`, and the optional fields come from the run.
   */
  function Assemble(fields: map<string, Json>, due: string, p: RunParams, start: DateTime): Result<TaskRequest, Error> {
    if "name" !in fields then Err(KeyError("name"))
    else if "priority" !in fields then Err(KeyError("priority"))
    else Ok(TaskRequest(
      fields["name"],
      p.workspaceId,
      due,
      Get(fields, "duration", JInt(DefaultDuration)),
      fields["priority"],
      if Truthy(p.projectId) then Some(p.projectId) else None,
      AutoScheduled(p, start)))
  }

  function AutoScheduleBody(a: AutoSchedule): Json {
    JObject(map["startDate" := JString(a.startDate), "deadlineType" := JString(a.deadlineType), "schedule" := a.schedule])
  }

  /** The JSON object posted for a request. */
  function RequestBody(r: TaskRequest): map<string, Json> {
    var base := map[
      "name" := r.name,
      "workspaceId" := r.workspaceId,
      "dueDate" := JString(r.dueDate),
      "duration" := r.duration,
      "priority" := r.priority];
    var withProject := if r.projectId.Some? then base["projectId" := r.projectId.value] else base;
    if r.autoScheduled.Some? then withProject["autoScheduled" := AutoScheduleBody(r.autoScheduled.value)]
    else withProject
  }

  /** The object posted for one entry, or the exception deriving it raises. */
  function Posted(entry: Json, p: RunParams, now: Now): Result<map<string, Json>, Error> {
    match Derive(entry, p, now)
    case Ok(request) => Ok(RequestBody(request))
    case Err(e) => Err(e)
  }

  /**
   * Builds the posted object the way the loop body does: the five-key dict
   * first, then `projectId` and `autoScheduled` added in place when they apply.
   */
  method BuildRequest(entry: Json, p: RunParams, now: Now) returns (r: Result<map<string, Json>, Error>)
    ensures r == Posted(entry, p, now)
  {
    if !entry.JObject? {
      return Err(AttributeError);
    }
    var fields := entry.fields;
    var due := DueDate(fields, p.delta, now.fallback);
    if due.Err? {
      return Err(due.error);
    }
    if "name" !in fields {
      return Err(KeyError("name"));
    }
    if "priority" !in fields {
      return Err(KeyError("priority"));
    }
    var payload := map[
      "name" := fields["name"],
      "workspaceId" := p.workspaceId,
      "dueDate" := JString(due.value),
      "duration" := Get(fields, "duration", JInt(DefaultDuration)),
      "priority" := fields["priority"]];
    if Truthy(p.projectId) {
      payload := payload["projectId" := p.projectId];
    }
    if Truthy(p.schedule) {
      payload := payload["autoScheduled" := AutoScheduleBody(AutoSchedule(Serialize(now.start), DeadlineType, p.schedule))];
    } else if p.autoschedule {
      payload := payload["autoScheduled" := AutoScheduleBody(AutoSchedule(Serialize(now.start), DeadlineType, JString(DefaultSchedule)))];
    }
    r := Ok(payload);
  }

  // ---------------------------------------------------------------------------
  // Properties of the derivation

  /**
   * The posted object has the five required keys, `projectId` exactly when the
   * run has a truthy project id, `autoScheduled` exactly when a schedule was
   * picked or the flag is set, and nothing else: an absent field is left out,
   * not sent as null.
   */
  lemma BodyKeys(r: TaskRequest)
    ensures RequestBody(r).Keys
         == RequiredKeys
          + (if r.projectId.Some? then {"projectId"} else {})
          + (if r.autoScheduled.Some? then {"autoScheduled"} else {})
  {
  }

  /** Reading the posted object's fields back. */
  lemma BodyFields(r: TaskRequest)
    ensures var body := RequestBody(r);
      && body["name"] == r.name && body["workspaceId"] == r.workspaceId
      && body["dueDate"] == JString(r.dueDate) && body["duration"] == r.duration
      && body["priority"] == r.priority
      && ("projectId" in body <==> r.projectId.Some?)
      && (r.projectId.Some? ==> body["projectId"] == r.projectId.value)
      && ("autoScheduled" in body <==> r.autoScheduled.Some?)
      && (r.autoScheduled.Some? ==> body["autoScheduled"] == AutoScheduleBody(r.autoScheduled.value))
  {
  }

  /**
   * The required fields: name and priority are the entry's own, duration is the
   * entry's or 30, the workspace is the run's (whatever the entry says), the
   * due date the one worked out before; a missing name is reported before a
   * missing priority.
   */
  lemma RequiredFields(fields: map<string, Json>, due: string, p: RunParams, start: DateTime)
    ensures "name" !in fields ==> Assemble(fields, due, p, start) == Err(KeyError("name"))
    ensures "name" in fields && "priority" !in fields ==> Assemble(fields, due, p, start) == Err(KeyError("priority"))
    ensures Assemble(fields, due, p, start).Ok? <==> "name" in fields && "priority" in fields
    ensures Assemble(fields, due, p, start).Ok? ==>
      var body := RequestBody(Assemble(fields, due, p, start).value);
      && body["name"] == fields["name"]
      && body["priority"] == fields["priority"]
      && body["workspaceId"] == p.workspaceId
      && body["dueDate"] == JString(due)
      && body["duration"] == (if "duration" in fields then fields["duration"] else JInt(30))
  {
    if "name" in fields && "priority" in fields {
      BodyFields(Assemble(fields, due, p, start).value);
    }
  }

  /** `projectId` is sent, with the run's value, exactly when that value is truthy. */
  lemma ProjectRule(entry: Json, p: RunParams, now: Now)
    requires Derive(entry, p, now).Ok?
    ensures var body := RequestBody(Derive(entry, p, now).value);
      && ("projectId" in body <==> Truthy(p.projectId))
      && ("projectId" in body ==> body["projectId"] == p.projectId)
  {
    BodyFields(Derive(entry, p, now).value);
  }

  /** What a successful derivation takes from the run rather than from the entry. */
  lemma DeriveFromRun(entry: Json, p: RunParams, now: Now)
    requires Derive(entry, p, now).Ok?
    ensures var r := Derive(entry, p, now).value;
      && r.workspaceId == p.workspaceId
      && r.projectId == (if Truthy(p.projectId) then Some(p.projectId) else None)
      && r.autoScheduled == AutoScheduled(p, now.start)
  {
  }

  /** Serializing a `utcnow()` reading prints it as `isoformat` does, with no `Z`. */
  lemma NaiveSerialized(t: DateTime)
    requires NaiveUtc(t)
    ensures Serialize(t) == IsoFormat(t) && NoChar(Serialize(t), 'Z')
  {
    SerializeShape(t);
    SerializeZ(t);
  }

  /**
   * Schedule precedence: a picked (truthy) schedule name wins over the flag, the
   * flag alone names "Work Hours", neither leaves the block out; the block is
   * always SOFT and starts at the start reading, which carries no `Z`.
   */
  lemma ScheduleRule(entry: Json, p: RunParams, now: Now)
    requires NaiveUtc(now.start)
    requires Derive(entry, p, now).Ok?
    ensures var body := RequestBody(Derive(entry, p, now).value);
      && ("autoScheduled" in body <==> Truthy(p.schedule) || p.autoschedule)
      && ("autoScheduled" in body ==>
            body["autoScheduled"].JObject?
            && var block := body["autoScheduled"].fields;
            && block.Keys == {"startDate", "deadlineType", "schedule"}
            && block["deadlineType"] == JString("SOFT")
            && block["schedule"] == (if Truthy(p.schedule) then p.schedule else JString("Work Hours"))
            && block["startDate"] == JString(IsoFormat(now.start))
            && NoChar(IsoFormat(now.start), 'Z'))
  {
    var r := Derive(entry, p, now).value;
    BodyFields(r);
    DeriveFromRun(entry, p, now);
    NaiveSerialized(now.start);
    if r.autoScheduled.Some? {
      var block := AutoScheduleBody(r.autoScheduled.value).fields;
      assert block["startDate"] == JString(Serialize(now.start));
    }
  }

  /**
   * The offset law: when the entry's date text (or the default) parses, the
   * dueDate sent reads back as that instant moved by delta days, same time of
   * day and offset; if the move overflows, the entry raises OverflowError.
   */
  lemma DueDateShifted(fields: map<string, Json>, delta: int, fallback: DateTime)
    requires Get(fields, "dueDate", JString(DefaultDueDate)).JString?
    requires ReadIso(Get(fields, "dueDate", JString(DefaultDueDate)).s).Some?
    ensures var t := ReadIso(Get(fields, "dueDate", JString(DefaultDueDate)).s).value;
      && (DueDate(fields, delta, fallback).Ok? <==> AddDays(t, delta).Some?)
      && (DueDate(fields, delta, fallback).Err? ==> DueDate(fields, delta, fallback).error == OverflowError)
      && (DueDate(fields, delta, fallback).Ok? ==>
            var sent := ReadIso(DueDate(fields, delta, fallback).value);
            && sent.Some?
            && DateOf(sent.value) == Shift(DateOf(t), delta)
            && sent.value.(year := t.year, month := t.month, day := t.day) == t)
  {
    var t := ReadIso(Get(fields, "dueDate", JString(DefaultDueDate)).s).value;
    if AddDays(t, delta).Some? {
      ReadSerialized(AddDays(t, delta).value);
    }
  }

  /**
   * A date text that does not parse is not fatal: the dueDate is the fallback
   * reading as is (no offset applied, and, the reading being naive, no `Z`).
   */
  lemma DueDateFallback(fields: map<string, Json>, delta: int, fallback: DateTime)
    requires NaiveUtc(fallback)
    requires Get(fields, "dueDate", JString(DefaultDueDate)).JString?
    requires ReadIso(Get(fields, "dueDate", JString(DefaultDueDate)).s).None?
    ensures DueDate(fields, delta, fallback) == Ok(IsoFormat(fallback))
    ensures NoChar(DueDate(fields, delta, fallback).value, 'Z')
    ensures ReadIso(DueDate(fields, delta, fallback).value) == Some(fallback)
  {
    SerializeShape(fallback);
    SerializeZ(fallback);
    ReadSerialized(fallback);
  }

  /** An entry without a due date is due at the default instant moved by delta days. */
  lemma DueDateDefault(fields: map<string, Json>, delta: int, fallback: DateTime)
    requires "dueDate" !in fields
    ensures DueDate(fields, delta, fallback)
         == match AddDays(DefaultInstant, delta)
            case None => Err(OverflowError)
            case Some(due) => Ok(Serialize(due))
  {
    DefaultDueDateReads();
  }

  /** A dueDate that is present but not a string makes `.replace` raise AttributeError. */
  lemma DueDateNotText(fields: map<string, Json>, p: RunParams, now: Now)
    requires "dueDate" in fields && !fields["dueDate"].JString?
    ensures Derive(JObject(fields), p, now) == Err(AttributeError)
  {
  }

  // ---------------------------------------------------------------------------
  // The default due date, spelled out. The small lemmas below only evaluate
  // literal texts piece by piece, so that `DefaultDueDateReads` stays cheap.

  lemma YearText()
    ensures Pad(2024, 4) == "2024"
  {
  }

  lemma MonthDayText()
    ensures Pad(12, 2) == "12" && Pad(31, 2) == "31"
  {
  }

  lemma HourMinuteText()
    ensures Pad(23, 2) == "23" && Pad(59, 2) == "59"
  {
  }

  lemma DefaultDateText()
    ensures DateText(2024, 12, 31) == "2024-12-31"
  {
    YearText();
    MonthDayText();
    assert "2024" + ("-" + ("12" + ("-" + "31"))) == "2024-12-31";
  }

  lemma DefaultClockText()
    ensures ClockText(23, 59, 59, 0) == "23:59:59"
  {
    HourMinuteText();
    assert FractionText(0) == "";
    assert "23" + (":" + ("59" + (":" + ("59" + "")))) == "23:59:59";
  }

  /** The last second of 2024, at UTC. */
  const DefaultInstant := DateTime(2024, 12, 31, 23, 59, 59, 0, Some(0))

  lemma DefaultLocalText(t: DateTime)
    requires t == DefaultInstant
    ensures LocalText(t) == "2024-12-31T23:59:59"
  {
    DefaultDateText();
    DefaultClockText();
    DefaultLocalJoin();
  }

  lemma DefaultLocalJoin()
    ensures "2024-12-31" + ("T" + "23:59:59") == "2024-12-31T23:59:59"
  {
  }

  lemma DefaultSerialized(t: DateTime)
    requires t == DefaultInstant
    ensures Serialize(t) == DefaultDueDate
  {
    SerializeShape(t);
    DefaultLocalText(t);
    assert "2024-12-31T23:59:59" + "Z" == DefaultDueDate;
  }

  /** The default due date is read as the last second of 2024, at UTC. */
  lemma DefaultDueDateReads()
    ensures ReadIso(DefaultDueDate) == Some(DefaultInstant)
  {
    var t := DefaultInstant;
    DefaultSerialized(t);
    ReadSerialized(t);
  }
}
