/**
 * The rate-limited dispatch of `create_tasks_from_template`: the template
 * check, then one create-task submission per entry in template order, each
 * followed by an 8-second sleep, with successes and failures counted and no
 * retry. An exception raised while deriving an entry ends the run there.
 */
module Dispatcher {
  import opened Wrappers
  import opened JsonValues
  import opened IsoTime
  import opened FieldDeriver

  const DelaySeconds := 8

  /**
   * What the gateway hands back for one submission: None (transport fault or
   * bad status, already caught) or the decoded JSON object.
   */
  datatype Response = NoResponse | Body(fields: map<string, Json>)

  /** What has been posted so far and how it was answered. */
  datatype Tally = Tally(sent: seq<map<string, Json>>, successes: nat, failures: nat)

  /**
   * How a run ends: refused before anything is asked or sent ("Invalid template
   * format."), through the whole template (the summary line is printed), or by
   * an exception escaping while entry `|tally.sent|` is processed.
   */
  datatype Outcome =
    | Rejected
    | Finished(tally: Tally)
    | Raised(tally: Tally, error: Error)
  {
    function Sent(): seq<map<string, Json>> {
      if Rejected? then [] else tally.sent
    }
  }

  const NoneSent := Tally([], 0, 0)

  /** `response and "id" in response`: an object that carries an id. */
  predicate Succeeded(r: Response) {
    r.Body? && "id" in r.fields
  }

  /** `needle in haystack` on strings. */
  predicate Contains(haystack: string, needle: string) {
    exists i :: 0 <= i <= |haystack| && needle <= haystack[i..]
  }

  /**
   * `not template or "tasks" not in template`: Ok(true) when the template is
   * refused; `in` on a truthy number or boolean raises TypeError.
   */
  function Refuses(template: Json): Result<bool, Error> {
    if !Truthy(template) then Ok(true)
    else match template
      case JObject(m) => Ok("tasks" !in m)
      case JArray(items) => Ok(JString("tasks") !in items)
      case JString(s) => Ok(!Contains(s, "tasks"))
      case _ => Err(TypeError)
  }

  /**
   * `enumerate(tasks)`: a list gives its items; an empty string or object gives
   * nothing; a non-empty one gives a `str` first, which has no `.get`; anything
   * else is not iterable.
   */
  function Entries(tasks: Json): Result<seq<Json>, Error> {
    match tasks
    case JArray(items) => Ok(items)
    case JString(s) => if s == [] then Ok([]) else Err(AttributeError)
    case JObject(m) => if m == map[] then Ok([]) else Err(AttributeError)
    case _ => Err(TypeError)
  }

  /** The entries of an accepted template: `template["tasks"]`, enumerated. */
  function TaskList(template: Json): Result<seq<Json>, Error>
    requires Refuses(template) == Ok(false)
  {
    match template
    case JObject(m) => Entries(m["tasks"])
    case _ => Err(TypeError)  // a list or string cannot be indexed by "tasks"
  }

  /**
   * What each entry would post, with the clock readings of its own iteration.
   * Deriving an entry does not look at earlier responses, so these are fixed
   * before the first submission.
   */
  function Requests(entries: seq<Json>, p: RunParams, clock: nat -> Now): (rs: seq<Result<map<string, Json>, Error>>)
    ensures |rs| == |entries|
  {
    seq(|entries|, k requires 0 <= k < |entries| => Posted(entries[k], p, clock(k)))
  }

  /** Request k is what entry k posts with the readings of iteration k. */
  lemma RequestsAt(entries: seq<Json>, p: RunParams, clock: nat -> Now)
    ensures forall k {:trigger Posted(entries[k], p, clock(k))} :: 0 <= k < |entries| ==>
      Requests(entries, p, clock)[k] == Posted(entries[k], p, clock(k))
  {
  }

  /** One submission: the body is posted and counted as a success or a failure. */
  function Record(t: Tally, body: map<string, Json>, r: Response): Tally {
    if Succeeded(r) then Tally(t.sent + [body], t.successes + 1, t.failures)
    else Tally(t.sent + [body], t.successes, t.failures + 1)
  }

  /**
   * The first n iterations of the loop: request i, when it did not raise, is
   * posted and answered with `gateway(i)`.
   */
  function Replay(requests: seq<Result<map<string, Json>, Error>>, gateway: nat -> Response, n: nat): (o: Outcome)
    requires n <= |requests|
    ensures !o.Rejected?
  {
    if n == 0 then Finished(NoneSent)
    else
      var before := Replay(requests, gateway, n - 1);
      if before.Raised? then before
      else
        match requests[n - 1]
        case Err(e) => Raised(before.tally, e)
        case Ok(body) => Finished(Record(before.tally, body, gateway(n - 1)))
  }

  /** A whole run of `create_tasks_from_template` on a template. */
  function Run(template: Json, p: RunParams, clock: nat -> Now, gateway: nat -> Response): Outcome {
    match Refuses(template)
    case Err(e) => Raised(NoneSent, e)
    case Ok(refused) =>
      if refused then Rejected
      else
        match TaskList(template)
        case Err(e) => Raised(NoneSent, e)
        case Ok(entries) => Replay(Requests(entries, p, clock), gateway, |entries|)
  }

  /** The number of the first n responses that count as successes. */
  function CountSucceeded(gateway: nat -> Response, n: nat): nat {
    if n == 0 then 0 else CountSucceeded(gateway, n - 1) + (if Succeeded(gateway(n - 1)) then 1 else 0)
  }

  // ---------------------------------------------------------------------------
  // The loop

  /**
   * `create_tasks_from_template` once the run's answers are known: the template
   * check, then the loop. The sleeps are counted, not taken.
   */
  method CreateTasksFromTemplate(template: Json, p: RunParams, clock: nat -> Now, gateway: nat -> Response)
    returns (outcome: Outcome, ghost sleeps: nat)
    ensures outcome == Run(template, p, clock, gateway)
    ensures !outcome.Rejected? ==> outcome.tally.successes + outcome.tally.failures == |outcome.tally.sent|
    ensures sleeps == |outcome.Sent()|
  {
    var refused := Refuses(template);
    if refused.Err? {
      return Raised(NoneSent, refused.error), 0;
    }
    if refused.value {
      return Rejected, 0;
    }
    var listed := TaskList(template);
    if listed.Err? {
      return Raised(NoneSent, listed.error), 0;
    }
    ghost var requests := Requests(listed.value, p, clock);
    RequestsAt(listed.value, p, clock);
    outcome, sleeps := Dispatch(listed.value, p, clock, gateway, requests);
  }

  /**
   * The rate-limited loop: each entry is derived, posted and answered in turn,
   * the counters move by one per submission, and a sleep follows every
   * submission, the last included.
   */
  method Dispatch(entries: seq<Json>, p: RunParams, clock: nat -> Now, gateway: nat -> Response,
                  ghost requests: seq<Result<map<string, Json>, Error>>)
    returns (outcome: Outcome, ghost sleeps: nat)
    requires |requests| == |entries|
    requires forall k {:trigger Posted(entries[k], p, clock(k))} :: 0 <= k < |entries| ==>
      requests[k] == Posted(entries[k], p, clock(k))
    ensures outcome == Replay(requests, gateway, |entries|)
    ensures outcome.tally.successes + outcome.tally.failures == |outcome.tally.sent|
    ensures sleeps == |outcome.tally.sent|
  {
    var successes, failures := 0, 0;
    var sent: seq<map<string, Json>> := [];
    sleeps := 0;
    var i := 0;
    while i < |entries|
      invariant i <= |entries|
      invariant Replay(requests, gateway, i) == Finished(Tally(sent, successes, failures))
      invariant |sent| == successes + failures == i
      invariant sleeps == i
    {
      var request := BuildAt(entries, p, clock, requests, i);
      if request.Err? {
        outcome := Raised(Tally(sent, successes, failures), request.error);
        ReplayStep(requests, gateway, i);
        ReplayStopped(requests, gateway, i + 1, |entries|);
        return;
      }
      ReplayStep(requests, gateway, i);
      var response := gateway(i);
      if Succeeded(response) {
        successes := successes + 1;
      } else {
        failures := failures + 1;
      }
      sent := sent + [request.value];
      sleeps := sleeps + 1;  // time.sleep(DelaySeconds)
      i := i + 1;
    }
    outcome := Finished(Tally(sent, successes, failures));
  }

  /** The loop body's dict for entry i, which is request i. */
  method BuildAt(entries: seq<Json>, p: RunParams, clock: nat -> Now,
                 ghost requests: seq<Result<map<string, Json>, Error>>, i: nat)
    returns (request: Result<map<string, Json>, Error>)
    requires i < |entries| == |requests|
    requires forall k {:trigger Posted(entries[k], p, clock(k))} :: 0 <= k < |entries| ==>
      requests[k] == Posted(entries[k], p, clock(k))
    ensures request == requests[i]
  {
    request := BuildRequest(entries[i], p, clock(i));
  }

  // ---------------------------------------------------------------------------
  // Properties of the replay

  /** One more iteration after a run that has not raised: post request i, or raise its exception. */
  lemma ReplayStep(requests: seq<Result<map<string, Json>, Error>>, gateway: nat -> Response, i: nat)
    requires i < |requests| && Replay(requests, gateway, i).Finished?
    ensures var t := Replay(requests, gateway, i).tally;
      Replay(requests, gateway, i + 1)
        == match requests[i]
           case Err(e) => Raised(t, e)
           case Ok(body) => Finished(Record(t, body, gateway(i)))
  {
  }

  /** Once an exception has escaped, later iterations never happen. */
  lemma {:induction false} ReplayStopped(requests: seq<Result<map<string, Json>, Error>>, gateway: nat -> Response, m: nat, n: nat)
    requires m <= n <= |requests|
    requires Replay(requests, gateway, m).Raised?
    ensures Replay(requests, gateway, n) == Replay(requests, gateway, m)
    decreases n - m
  {
    if m < n {
      ReplayStopped(requests, gateway, m, n - 1);
    }
  }

  /**
   * Dispatch accounting and order: after n iterations the successes and
   * failures add up to the submissions made; submission k is request k; a run
   * that got through made exactly n submissions, and one that raised made
   * fewer, the exception being that of the next request.
   */
  lemma {:induction false} ReplayAccounting(requests: seq<Result<map<string, Json>, Error>>, gateway: nat -> Response, n: nat)
    requires n <= |requests|
    ensures var t := Replay(requests, gateway, n).tally;
      && t.successes + t.failures == |t.sent| <= n
      && (forall k :: 0 <= k < |t.sent| ==> requests[k] == Ok(t.sent[k]))
      && (Replay(requests, gateway, n).Finished? ==> |t.sent| == n)
      && (Replay(requests, gateway, n).Raised? ==>
            |t.sent| < n && requests[|t.sent|] == Err(Replay(requests, gateway, n).error))
  {
    if n > 0 {
      ReplayAccounting(requests, gateway, n - 1);
    }
  }

  /**
   * Success criterion: the successes are exactly the submissions whose response
   * is an object with an id; every other response is a failure.
   */
  lemma {:induction false} ReplaySuccesses(requests: seq<Result<map<string, Json>, Error>>, gateway: nat -> Response, n: nat)
    requires n <= |requests|
    ensures var t := Replay(requests, gateway, n).tally;
      && t.successes == CountSucceeded(gateway, |t.sent|)
      && t.failures == |t.sent| - CountSucceeded(gateway, |t.sent|)
  {
    if n > 0 {
      ReplaySuccesses(requests, gateway, n - 1);
      ReplayAccounting(requests, gateway, n - 1);
    }
  }

  /**
   * No retry and no stop on failure: what is submitted, and how the run ends,
   * does not depend on the responses.
   */
  lemma {:induction false} ReplayIgnoresResponses(requests: seq<Result<map<string, Json>, Error>>, g1: nat -> Response, g2: nat -> Response, n: nat)
    requires n <= |requests|
    ensures var o1 := Replay(requests, g1, n);
      var o2 := Replay(requests, g2, n);
      && o1.Finished? == o2.Finished?
      && o1.tally.sent == o2.tally.sent
      && (o1.Raised? ==> o1.error == o2.error)
  {
    if n > 0 {
      ReplayIgnoresResponses(requests, g1, g2, n - 1);
    }
  }

  /** A run gets through n iterations exactly when none of the first n requests raised. */
  lemma {:induction false} ReplayFinishes(requests: seq<Result<map<string, Json>, Error>>, gateway: nat -> Response, n: nat)
    requires n <= |requests|
    ensures Replay(requests, gateway, n).Finished? <==> forall k :: 0 <= k < n ==> requests[k].Ok?
  {
    if n > 0 {
      ReplayFinishes(requests, gateway, n - 1);
      if Replay(requests, gateway, n - 1).Raised? {
        ReplayAccounting(requests, gateway, n - 1);
      }
    }
  }

  /**
   * Invalid template rejection: a falsy template, or an object without
   * "tasks", is refused; an object with "tasks" is not; a run that submits
   * anything had an object with "tasks".
   */
  lemma RunRejects(template: Json, p: RunParams, clock: nat -> Now, gateway: nat -> Response)
    ensures !Truthy(template) ==> Run(template, p, clock, gateway) == Rejected
    ensures template.JObject? ==> (Run(template, p, clock, gateway).Rejected? <==> "tasks" !in template.fields)
    ensures Run(template, p, clock, gateway).Sent() != [] ==> template.JObject? && "tasks" in template.fields
  {
  }

  /**
   * Templates of the wrong shape: a truthy number or boolean makes the `in`
   * test raise TypeError; a list or string that contains "tasks" passes it and
   * then cannot be indexed by "tasks" (TypeError); an object whose "tasks" is
   * null, a number or a boolean cannot be enumerated (TypeError); a non-empty
   * string or object enumerates to a `str`, which has no `.get`
   * (AttributeError); an empty one gives a run with nothing to submit.
   */
  lemma RunMalformed(template: Json, p: RunParams, clock: nat -> Now, gateway: nat -> Response)
    ensures (template.JInt? || template.JBool?) && Truthy(template) ==>
      Run(template, p, clock, gateway) == Raised(NoneSent, TypeError)
    ensures template.JArray? && JString("tasks") in template.items ==>
      Run(template, p, clock, gateway) == Raised(NoneSent, TypeError)
    ensures template.JString? && Contains(template.s, "tasks") ==>
      Run(template, p, clock, gateway) == Raised(NoneSent, TypeError)
    ensures template.JObject? && "tasks" in template.fields ==>
      var tasks := template.fields["tasks"];
      && (tasks.JNull? || tasks.JBool? || tasks.JInt? ==>
            Run(template, p, clock, gateway) == Raised(NoneSent, TypeError))
      && ((tasks.JString? || tasks.JObject?) && Truthy(tasks) ==>
            Run(template, p, clock, gateway) == Raised(NoneSent, AttributeError))
      && ((tasks.JString? || tasks.JObject?) && !Truthy(tasks) ==>
            Run(template, p, clock, gateway) == Finished(NoneSent))
  {
    if template.JString? && Contains(template.s, "tasks") {
      var i :| 0 <= i <= |template.s| && "tasks" <= template.s[i..];
      assert template.s != [];
    }
  }

  /**
   * A whole run over a list of tasks: successes and failures add up to the
   * submissions, successes are the responses with an id, submission k is the
   * request derived from task k with the readings of iteration k, and the run
   * gets through all tasks exactly when each derives, stopping otherwise at the
   * first that raises.
   */
  lemma RunAccounting(tasks: seq<Json>, p: RunParams, clock: nat -> Now, gateway: nat -> Response)
    ensures var o := Run(JObject(map["tasks" := JArray(tasks)]), p, clock, gateway);
      && !o.Rejected?
      && o.tally.successes + o.tally.failures == |o.tally.sent| <= |tasks|
      && o.tally.successes == CountSucceeded(gateway, |o.tally.sent|)
      && (o.Finished? <==> forall k :: 0 <= k < |tasks| ==> Derive(tasks[k], p, clock(k)).Ok?)
      && (o.Finished? ==> |o.tally.sent| == |tasks|)
      && (o.Raised? ==> |o.tally.sent| < |tasks| && Derive(tasks[|o.tally.sent|], p, clock(|o.tally.sent|)) == Err(o.error))
      && forall k :: 0 <= k < |o.tally.sent| ==>
           Derive(tasks[k], p, clock(k)).Ok? && o.tally.sent[k] == RequestBody(Derive(tasks[k], p, clock(k)).value)
  {
    var requests := Requests(tasks, p, clock);
    RunIsReplay(tasks, p, clock, gateway);
    ReplayAccounting(requests, gateway, |tasks|);
    ReplaySuccesses(requests, gateway, |tasks|);
    ReplayFinishes(requests, gateway, |tasks|);
    forall k | 0 <= k < |tasks|
      ensures requests[k].Ok? <==> Derive(tasks[k], p, clock(k)).Ok?
      ensures requests[k].Ok? ==> requests[k].value == RequestBody(Derive(tasks[k], p, clock(k)).value)
      ensures requests[k].Err? ==> requests[k] == Err(Derive(tasks[k], p, clock(k)).error)
    {
      RequestsAt(tasks, p, clock);
      assert requests[k] == Posted(tasks[k], p, clock(k));
    }
  }

  /** The template `{"tasks": tasks}` is accepted and its tasks are replayed in order. */
  lemma RunIsReplay(tasks: seq<Json>, p: RunParams, clock: nat -> Now, gateway: nat -> Response)
    ensures Run(JObject(map["tasks" := JArray(tasks)]), p, clock, gateway)
         == Replay(Requests(tasks, p, clock), gateway, |tasks|)
  {
    var template := JObject(map["tasks" := JArray(tasks)]);
    assert "tasks" in template.fields;
    assert Truthy(template);
    assert Refuses(template) == Ok(false);
    assert TaskList(template) == Ok(tasks);
  }
}
