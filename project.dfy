/**
 * `create_project`, as far as it feeds the replay: the project request built
 * from the answers, and the id the replay attaches to every task.
 */
module ProjectCreation {
  import opened Wrappers
  import opened JsonValues
  import opened Text
  import opened IsoTime
  import opened FieldDeriver
  import opened Dispatcher
  import opened Prompts

  /**
   * The create-project request, or None when the name is blank (creation is
   * skipped and nothing is posted). The delta is the replay's, already an int;
   * the due date is the `utcnow()` reading `now`, moved by delta days when delta
   * is not 0, then serialized; a move out of range raises OverflowError.
   */
  function ProjectRequest(name: string, workspaceId: Json, delta: int, priorityAnswer: string, now: DateTime)
    : Result<Option<map<string, Json>>, Error>
    requires NaiveUtc(now)
  {
    if name == [] then Ok(None)
    else
      match ProjectDue(now, delta)
      case None => Err(OverflowError)
      case Some(due) =>
        Ok(Some(map[
          "name" := JString(name),
          "workspaceId" := workspaceId,
          "priority" := JString(NormalizePriority(priorityAnswer)),
          "dueDate" := JString(Serialize(due))]))
  }

  /** `utcnow() + timedelta(days=delta)` when delta is not 0, the reading itself when it is. */
  function ProjectDue(now: DateTime, delta: int): (due: Option<DateTime>)
    requires NaiveUtc(now)
    ensures due == AddDays(now, delta)
  {
    AddDaysZero(now);
    if delta != 0 then AddDays(now, delta) else Some(now)
  }

  /** The project's due date carries no `Z` and reads back as the moved reading. */
  lemma ProjectDueText(now: DateTime, delta: int)
    requires NaiveUtc(now) && AddDays(now, delta).Some?
    ensures var due := AddDays(now, delta).value;
      NoChar(Serialize(due), 'Z') && ReadIso(Serialize(due)) == Some(due)
  {
    var due := AddDays(now, delta).value;
    ReadSerialized(due);
    SerializeZ(due);
  }

  /**
   * The project request: nothing is posted for a blank name; otherwise the
   * request has exactly name, workspaceId, priority and dueDate, its priority is
   * one of the four, and its due date, which carries no `Z`, reads back as the
   * reading moved by delta days; it raises exactly when that move overflows.
   */
  lemma ProjectRequestShape(name: string, workspaceId: Json, delta: int, priorityAnswer: string, now: DateTime)
    requires NaiveUtc(now)
    ensures var r := ProjectRequest(name, workspaceId, delta, priorityAnswer, now);
      && (r == Ok(None) <==> name == [])
      && (r.Err? <==> name != [] && AddDays(now, delta).None?)
      && (r.Err? ==> r.error == OverflowError)
      && (r.Ok? && r.value.Some? ==>
            var body := r.value.value;
            && body.Keys == {"name", "workspaceId", "priority", "dueDate"}
            && body["name"] == JString(name)
            && body["workspaceId"] == workspaceId
            && body["priority"].JString? && body["priority"].s in Priorities
            && body["dueDate"].JString?
            && NoChar(body["dueDate"].s, 'Z')
            && ReadIso(body["dueDate"].s) == AddDays(now, delta))
  {
    if name != [] && AddDays(now, delta).Some? {
      ProjectDueText(now, delta);
    }
  }

  /** `response["id"] if response and "id" in response else None`, None being JNull. */
  function CreatedProjectId(response: Response): (id: Json)
    ensures Succeeded(response) ==> id == response.fields["id"]
    ensures !Succeeded(response) ==> id == JNull
  {
    if Succeeded(response) then response.fields["id"] else JNull
  }

  /**
   * The replay attaches a project exactly when creation answered with a truthy
   * id, and then that id; a failed creation (no response, or no id) leaves the
   * tasks without a project and the replay goes on.
   */
  lemma ProjectFeedsTasks(response: Response, entry: Json, p: RunParams, now: Now)
    requires p.projectId == CreatedProjectId(response)
    requires Derive(entry, p, now).Ok?
    ensures var body := RequestBody(Derive(entry, p, now).value);
      && ("projectId" in body <==> Succeeded(response) && Truthy(response.fields["id"]))
      && ("projectId" in body ==> body["projectId"] == response.fields["id"])
  {
    ProjectRule(entry, p, now);
  }
}
