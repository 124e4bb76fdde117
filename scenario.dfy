/**
 * One replay worked end to end: a two-task template, HIGH and LOW, the first
 * without a due date and the second with one that does not parse, replayed
 * three days out with no project, no schedule and auto-scheduling off.
 */
module Scenario {
  import opened Wrappers
  import opened JsonValues
  import opened Text
  import opened IsoTime
  import opened FieldDeriver
  import opened Dispatcher

  const FirstTask := JObject(map["name" := JString("Draft"), "priority" := JString("HIGH")])
  const SecondTask := JObject(map["name" := JString("Review"), "priority" := JString("LOW"), "dueDate" := JString("soon")])
  const Template := JObject(map["tasks" := JArray([FirstTask, SecondTask])])

  /** The run's answers: three days out, and nothing else chosen. */
  function Answers(workspaceId: Json): RunParams {
    RunParams(workspaceId, 3, JNull, JNull, false)
  }

  /** Three days after the default due date is 3 January 2025, same time, still UTC. */
  lemma ThreeDaysLater()
    ensures AddDays(DefaultInstant, 3) == Some(DefaultInstant.(year := 2025, month := 1, day := 3))
  {
    var d := DateOf(DefaultInstant);
    assert NextDay(d) == Date(2025, 1, 1);
    assert NextDay(Date(2025, 1, 1)) == Date(2025, 1, 2);
    assert NextDay(Date(2025, 1, 2)) == Date(2025, 1, 3);
    assert Shift(d, 3) == Date(2025, 1, 3);
  }

  /** "soon" is not a date. */
  lemma SoonIsNoDate()
    ensures ReadIso("soon") == None
  {
    ReplaceAbsent("soon", "Z", "+00:00");
  }

  /** The day the first task is due: three days after the default due date. */
  const FirstDue := DefaultInstant.(year := 2025, month := 1, day := 3)

  // The first due date, spelled out piece by piece.

  lemma FirstYearPad()
    ensures Pad(2025, 4) == "2025"
  {
  }

  lemma FirstMonthDayPads()
    ensures Pad(1, 2) == "01" && Pad(3, 2) == "03"
  {
  }

  lemma FirstDateJoin()
    ensures "2025" + ("-" + ("01" + ("-" + "03"))) == "2025-01-03"
  {
  }

  lemma FirstDateText()
    ensures DateText(2025, 1, 3) == "2025-01-03"
  {
    FirstYearPad();
    FirstMonthDayPads();
    FirstDateJoin();
  }

  lemma FirstLocalJoin()
    ensures "2025-01-03" + ("T" + "23:59:59") == "2025-01-03T23:59:59"
  {
  }

  lemma FirstLocalText(t: DateTime)
    requires t == FirstDue
    ensures LocalText(t) == "2025-01-03T23:59:59"
  {
    FirstDateText();
    DefaultClockText();
    FirstLocalJoin();
  }

  /** The first task is sent due at `2025-01-03T23:59:59Z`. */
  lemma FirstDueText()
    ensures Serialize(FirstDue) == "2025-01-03T23:59:59Z"
  {
    var t := FirstDue;
    SerializeShape(t);
    FirstLocalText(t);
    assert "2025-01-03T23:59:59" + "Z" == "2025-01-03T23:59:59Z";
  }

  /** The first task takes the default date moved three days, and has no duration, so 30. */
  lemma FirstRequest(p: RunParams, now: Now)
    requires p == Answers(p.workspaceId)
    ensures Derive(FirstTask, p, now)
         == Ok(TaskRequest(JString("Draft"), p.workspaceId, Serialize(FirstDue), JInt(DefaultDuration), JString("HIGH"), None, None))
  {
    DueDateDefault(FirstTask.fields, p.delta, now.fallback);
    ThreeDaysLater();
  }

  /** The second task's date does not parse, so it falls back to the reading as is. */
  lemma SecondRequest(p: RunParams, now: Now)
    requires p == Answers(p.workspaceId)
    ensures Derive(SecondTask, p, now)
         == Ok(TaskRequest(JString("Review"), p.workspaceId, Serialize(now.fallback), JInt(DefaultDuration), JString("LOW"), None, None))
  {
    SoonIsNoDate();
  }

  /**
   * A run over tasks that all derive to requests without a project or an
   * auto-schedule block: every task is submitted, in order, each with exactly
   * the five required fields, its own priority and its own due date.
   */
  lemma QuietRun(tasks: seq<Json>, rs: seq<TaskRequest>, p: RunParams, clock: nat -> Now, gateway: nat -> Response)
    requires |rs| == |tasks|
    requires forall k :: 0 <= k < |tasks| ==>
      Derive(tasks[k], p, clock(k)) == Ok(rs[k]) && rs[k].projectId.None? && rs[k].autoScheduled.None?
    ensures var o := Run(JObject(map["tasks" := JArray(tasks)]), p, clock, gateway);
      && o.Finished?
      && |o.Sent()| == |tasks|
      && o.tally.successes == CountSucceeded(gateway, |tasks|) <= |tasks|
      && o.tally.failures == |tasks| - o.tally.successes
      && forall k :: 0 <= k < |tasks| ==>
           && o.tally.sent[k] == RequestBody(rs[k])
           && o.tally.sent[k].Keys == RequiredKeys
           && o.tally.sent[k]["priority"] == rs[k].priority
           && o.tally.sent[k]["dueDate"] == JString(rs[k].dueDate)
  {
    RunAccounting(tasks, p, clock, gateway);
    CountBound(gateway, |tasks|);
    forall k | 0 <= k < |tasks|
      ensures QuietBody(rs[k])
    {
      QuietFields(rs[k]);
    }
  }

  /** The posted object of a request without a project or an auto-schedule block. */
  predicate QuietBody(r: TaskRequest) {
    var body := RequestBody(r);
    && body.Keys == RequiredKeys
    && body["priority"] == r.priority
    && body["dueDate"] == JString(r.dueDate)
  }

  lemma QuietFields(r: TaskRequest)
    requires r.projectId.None? && r.autoScheduled.None?
    ensures QuietBody(r)
  {
    BodyKeys(r);
    BodyFields(r);
  }

  lemma {:induction false} CountBound(gateway: nat -> Response, n: nat)
    ensures CountSucceeded(gateway, n) <= n
  {
    if n > 0 {
      CountBound(gateway, n - 1);
    }
  }

  /** The two requests the scenario derives, in template order. */
  function Expected(workspaceId: Json, clock: nat -> Now): seq<TaskRequest> {
    [TaskRequest(JString("Draft"), workspaceId, Serialize(FirstDue), JInt(DefaultDuration), JString("HIGH"), None, None),
     TaskRequest(JString("Review"), workspaceId, Serialize(clock(1).fallback), JInt(DefaultDuration), JString("LOW"), None, None)]
  }

  /** Both tasks derive, each to its expected request. */
  lemma ScenarioDerives(workspaceId: Json, clock: nat -> Now)
    ensures var tasks := [FirstTask, SecondTask];
      var rs := Expected(workspaceId, clock);
      forall k :: 0 <= k < 2 ==>
        Derive(tasks[k], Answers(workspaceId), clock(k)) == Ok(rs[k]) && rs[k].projectId.None? && rs[k].autoScheduled.None?
  {
    var tasks := [FirstTask, SecondTask];
    var rs := Expected(workspaceId, clock);
    forall k | 0 <= k < 2
      ensures Derive(tasks[k], Answers(workspaceId), clock(k)) == Ok(rs[k])
    {
      if k == 0 {
        FirstRequest(Answers(workspaceId), clock(0));
      } else {
        SecondRequest(Answers(workspaceId), clock(1));
      }
    }
  }

  /**
   * The scenario: both tasks are submitted, in order, with a sleep after each;
   * the successes are the responses with an id, the rest are failures; neither
   * request carries projectId or autoScheduled; the first (HIGH) is due three
   * days after the default date, the second (LOW) falls back to its own reading.
   */
  lemma TwoTaskReplay(workspaceId: Json, clock: nat -> Now, gateway: nat -> Response)
    ensures var o := Run(Template, Answers(workspaceId), clock, gateway);
      && o.Finished?
      && |o.Sent()| == 2
      && o.tally.successes == CountSucceeded(gateway, 2) <= 2
      && o.tally.failures == 2 - o.tally.successes
      && o.tally.sent[0].Keys == RequiredKeys && o.tally.sent[1].Keys == RequiredKeys
      && o.tally.sent[0]["priority"] == JString("HIGH")
      && o.tally.sent[1]["priority"] == JString("LOW")
      && o.tally.sent[0]["dueDate"] == JString(Serialize(FirstDue))
      && o.tally.sent[1]["dueDate"] == JString(Serialize(clock(1).fallback))
    ensures Serialize(FirstDue) == "2025-01-03T23:59:59Z"
  {
    ScenarioDerives(workspaceId, clock);
    QuietRun([FirstTask, SecondTask], Expected(workspaceId, clock), Answers(workspaceId), clock, gateway);
    FirstDueText();
  }

  /**
   * The scenario run through the loop itself: it gets through both tasks, with
   * two submissions and a sleep after each.
   */
  method ReplayScenario(workspaceId: Json, clock: nat -> Now, gateway: nat -> Response)
    returns (outcome: Outcome, ghost sleeps: nat)
    ensures outcome == Run(Template, Answers(workspaceId), clock, gateway)
    ensures outcome.Finished? && |outcome.Sent()| == 2
    ensures outcome.tally.successes + outcome.tally.failures == 2
    ensures sleeps == 2
  {
    outcome, sleeps := CreateTasksFromTemplate(Template, Answers(workspaceId), clock, gateway);
    TwoTaskReplay(workspaceId, clock, gateway);
  }
}
