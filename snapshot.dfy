/**
 * `generate_task_template`: the tasks listed for a project become template
 * entries, each reduced to the five fields a create-task request needs with
 * the defaults filled in, and the template file is named after the
 * workspace, the project and the moment it was taken.
 */
module TemplateSnapshot {
  import opened Wrappers
  import opened JsonValues
  import opened Text
  import opened IsoTime
  import opened FieldDeriver
  import opened Dispatcher
  import opened Prompts

  const DefaultName := ""

  /** A template ready to be written: its file name and its JSON content. */
  datatype Snapshot = Snapshot(fileName: string, template: Json)

  /**
   * One listed task as a template entry. The workspace id is the workspace's,
   * whatever the task says; a task that is not an object has no `.get`.
   */
  function SnapshotEntry(workspaceId: Json, task: Json): (r: Result<map<string, Json>, Error>)
    ensures r.Ok? <==> task.JObject?
    ensures r.Err? ==> r.error == AttributeError
    ensures r.Ok? ==>
      && r.value.Keys == RequiredKeys
      && r.value["workspaceId"] == workspaceId
      && r.value["name"] == (if "name" in task.fields then task.fields["name"] else JString(DefaultName))
      && r.value["dueDate"] == (if "dueDate" in task.fields then task.fields["dueDate"] else JString(DefaultDueDate))
      && r.value["duration"] == (if "duration" in task.fields then task.fields["duration"] else JInt(DefaultDuration))
      && r.value["priority"] == (if "priority" in task.fields then task.fields["priority"] else JString(DefaultPriority))
  {
    match task
    case JObject(m) =>
      Ok(map[
        "name" := Get(m, "name", JString(DefaultName)),
        "workspaceId" := workspaceId,
        "dueDate" := Get(m, "dueDate", JString(DefaultDueDate)),
        "duration" := Get(m, "duration", JInt(DefaultDuration)),
        "priority" := Get(m, "priority", JString(DefaultPriority))])
    case _ => Err(AttributeError)
  }

  /**
   * The entries of the first |tasks| loop iterations, in order, or the
   * exception of the first task that is not an object.
   */
  function TemplateEntries(workspaceId: Json, tasks: seq<Json>): Result<seq<map<string, Json>>, Error> {
    if tasks == [] then Ok([])
    else
      var init :- TemplateEntries(workspaceId, tasks[..|tasks| - 1]);
      var entry :- SnapshotEntry(workspaceId, tasks[|tasks| - 1]);
      Ok(init + [entry])
  }

  /** `f"{ws.replace(' ', '_')}.{proj.replace(' ', '_')}.{stamp}.json"`. */
  function TemplateFileName(workspaceName: string, projectName: string, now: DateTime): string {
    Replace(workspaceName, " ", "_") + "." + Replace(projectName, " ", "_") + "." + Stamp(now) + ".json"
  }

  /** The template object: `{"tasks": entries}`. */
  function TemplateOf(entries: seq<map<string, Json>>): Json {
    JObject(map["tasks" := JArray(seq(|entries|, k requires 0 <= k < |entries| => JObject(entries[k])))])
  }

  /**
   * The template snapshot: the listed tasks, mapped one by one and appended in
   * order, then the file name. `now` is the `datetime.now()` reading taken
   * before the loop; the file write is not modelled.
   */
  method GenerateTaskTemplate(workspaceId: Json, workspaceName: string, projectName: string, tasks: seq<Json>, now: DateTime)
    returns (r: Result<Snapshot, Error>)
    ensures match TemplateEntries(workspaceId, tasks)
      case Err(e) => r == Err(e)
      case Ok(entries) => r == Ok(Snapshot(TemplateFileName(workspaceName, projectName, now), TemplateOf(entries)))
  {
    var creationTime := Stamp(now);
    var templateTasks: seq<map<string, Json>> := [];
    var i := 0;
    while i < |tasks|
      invariant i <= |tasks|
      invariant TemplateEntries(workspaceId, tasks[..i]) == Ok(templateTasks)
    {
      assert tasks[..i + 1][..i] == tasks[..i];
      var entry := SnapshotEntry(workspaceId, tasks[i]);
      if entry.Err? {
        StoppedEntries(workspaceId, tasks, i + 1);
        return Err(entry.error);
      }
      templateTasks := templateTasks + [entry.value];
      i := i + 1;
    }
    assert tasks[..i] == tasks;
    var fileName := Replace(workspaceName, " ", "_") + "." + Replace(projectName, " ", "_") + "." + creationTime + ".json";
    r := Ok(Snapshot(fileName, TemplateOf(templateTasks)));
  }

  // ---------------------------------------------------------------------------
  // Properties of the mapping

  /** Once a prefix has raised, the longer prefixes raise the same exception. */
  lemma {:induction false} StoppedEntries(workspaceId: Json, tasks: seq<Json>, n: nat)
    requires n <= |tasks|
    requires TemplateEntries(workspaceId, tasks[..n]).Err?
    ensures TemplateEntries(workspaceId, tasks) == TemplateEntries(workspaceId, tasks[..n])
    decreases |tasks| - n
  {
    if n < |tasks| {
      var longer := tasks[..n + 1];
      assert longer[..|longer| - 1] == tasks[..n];
      StoppedEntries(workspaceId, tasks, n + 1);
    } else {
      assert tasks[..n] == tasks;
    }
  }

  /**
   * Template mapping: a snapshot that is made has one entry per task, in the
   * same order, entry k being task k's.
   */
  lemma {:induction false} MappingOrder(workspaceId: Json, tasks: seq<Json>)
    requires TemplateEntries(workspaceId, tasks).Ok?
    ensures var entries := TemplateEntries(workspaceId, tasks).value;
      && |entries| == |tasks|
      && forall k :: 0 <= k < |tasks| ==> Ok(entries[k]) == SnapshotEntry(workspaceId, tasks[k])
  {
    if tasks != [] {
      var init := tasks[..|tasks| - 1];
      MappingOrder(workspaceId, init);
      var prefix := TemplateEntries(workspaceId, init).value;
      var entries := TemplateEntries(workspaceId, tasks).value;
      assert entries == prefix + [SnapshotEntry(workspaceId, tasks[|tasks| - 1]).value];
      assert forall k :: 0 <= k < |init| ==> init[k] == tasks[k] && entries[k] == prefix[k];
    }
  }

  /**
   * The snapshot is made exactly when every listed task is an object; otherwise
   * a task that is not one raises AttributeError.
   */
  lemma {:induction false} MappingTotal(workspaceId: Json, tasks: seq<Json>)
    ensures TemplateEntries(workspaceId, tasks).Ok? <==> forall k :: 0 <= k < |tasks| ==> tasks[k].JObject?
    ensures TemplateEntries(workspaceId, tasks).Err? ==> TemplateEntries(workspaceId, tasks).error == AttributeError
  {
    if tasks != [] {
      var init := tasks[..|tasks| - 1];
      MappingTotal(workspaceId, init);
      assert forall k :: 0 <= k < |init| ==> init[k] == tasks[k];
      if TemplateEntries(workspaceId, init).Err? {
        var k :| 0 <= k < |init| && !init[k].JObject?;
        assert !tasks[k].JObject?;
      }
    }
  }

  /** Every entry of the snapshot carries the five keys and the workspace's id, nothing else. */
  lemma EntriesShape(workspaceId: Json, tasks: seq<Json>)
    requires TemplateEntries(workspaceId, tasks).Ok?
    ensures forall e :: e in TemplateEntries(workspaceId, tasks).value ==>
      e.Keys == RequiredKeys && e["workspaceId"] == workspaceId
  {
    MappingOrder(workspaceId, tasks);
    var entries := TemplateEntries(workspaceId, tasks).value;
    forall e | e in entries
      ensures e.Keys == RequiredKeys && e["workspaceId"] == workspaceId
    {
      var k :| 0 <= k < |entries| && entries[k] == e;
      assert Ok(e) == SnapshotEntry(workspaceId, tasks[k]);
    }
  }

  /**
   * A snapshot replays: the template is never refused, and none of its entries
   * raises KeyError or fails for not being an object, since each has a name and
   * a priority; each posted request takes its name, priority and duration from
   * the entry, and its workspace from the run.
   */
  lemma SnapshotReplays(workspaceId: Json, tasks: seq<Json>, p: RunParams, clock: nat -> Now)
    requires TemplateEntries(workspaceId, tasks).Ok?
    ensures var template := TemplateOf(TemplateEntries(workspaceId, tasks).value);
      && Refuses(template) == Ok(false)
      && TaskList(template).Ok?
      && |TaskList(template).value| == |tasks|
      && forall k :: 0 <= k < |tasks| ==> EntryReplays(TaskList(template).value[k], p, clock(k))
  {
    var entries := TemplateEntries(workspaceId, tasks).value;
    var template := TemplateOf(entries);
    MappingOrder(workspaceId, tasks);
    EntriesShape(workspaceId, tasks);
    assert "tasks" in template.fields;
    var listed := TaskList(template).value;
    forall k | 0 <= k < |tasks|
      ensures EntryReplays(listed[k], p, clock(k))
    {
      assert entries[k] in entries;
      assert listed[k] == JObject(entries[k]);
      EntryReplay(entries[k], p, clock(k));
    }
  }

  /**
   * What replaying one snapshot entry gives: it raises only if its due date
   * does, and the request (whose posted fields `RequestBody` lays out) keeps
   * the entry's name, priority and duration.
   */
  predicate EntryReplays(entry: Json, p: RunParams, now: Now) {
    && entry.JObject?
    && entry.fields.Keys == RequiredKeys
    && var derived := Derive(entry, p, now);
    && (derived.Ok? <==> DueDate(entry.fields, p.delta, now.fallback).Ok?)
    && (derived.Ok? ==>
          && derived.value.name == entry.fields["name"]
          && derived.value.priority == entry.fields["priority"]
          && derived.value.duration == entry.fields["duration"]
          && derived.value.workspaceId == p.workspaceId)
  }

  lemma EntryReplay(fields: map<string, Json>, p: RunParams, now: Now)
    requires fields.Keys == RequiredKeys
    ensures EntryReplays(JObject(fields), p, now)
  {
    var due := DueDate(fields, p.delta, now.fallback);
    if due.Ok? {
      RequiredFields(fields, due.value, p, now.start);
    }
  }

  // ---------------------------------------------------------------------------
  // Properties of the file name

  /** A stamp is `YYYYMMDD_HHMMSS`: fifteen characters, digits around one underscore. */
  lemma StampShape(t: DateTime)
    ensures |Stamp(t)| == 15
    ensures forall i :: 0 <= i < 15 ==> (if i == 8 then Stamp(t)[i] == '_' else IsDigit(Stamp(t)[i]))
  {
    var date := Pad(t.year, 4) + Pad(t.month, 2) + Pad(t.day, 2);
    var clock := Pad(t.hour, 2) + Pad(t.minute, 2) + Pad(t.second, 2);
    assert Stamp(t) == date + "_" + clock;
    assert AllDigits(date) && AllDigits(clock) by {
      assert forall i :: 0 <= i < 4 ==> date[i] == Pad(t.year, 4)[i];
      assert forall i :: 0 <= i < 2 ==> date[4 + i] == Pad(t.month, 2)[i] && date[6 + i] == Pad(t.day, 2)[i];
      assert forall i :: 0 <= i < 2 ==> clock[i] == Pad(t.hour, 2)[i];
      assert forall i :: 0 <= i < 2 ==> clock[2 + i] == Pad(t.minute, 2)[i] && clock[4 + i] == Pad(t.second, 2)[i];
    }
  }

  /**
   * The file name is `workspace.project.stamp.json`: the two names keep their
   * length and characters except that each space becomes `_`, separated by
   * dots, then the 15-character stamp and the `.json` extension.
   */
  lemma FileNameShape(workspaceName: string, projectName: string, now: DateTime)
    ensures var name := TemplateFileName(workspaceName, projectName, now);
      var w := |workspaceName|;
      var q := |projectName|;
      && |name| == w + q + 22
      && (forall i :: 0 <= i < w ==> name[i] == (if workspaceName[i] == ' ' then '_' else workspaceName[i]))
      && name[w] == '.'
      && (forall i :: 0 <= i < q ==> name[w + 1 + i] == (if projectName[i] == ' ' then '_' else projectName[i]))
      && name[w + 1 + q] == '.'
      && name[w + q + 2..w + q + 17] == Stamp(now)
      && name[w + q + 17..] == ".json"
  {
    ReplaceChar(workspaceName, ' ', '_');
    ReplaceChar(projectName, ' ', '_');
    StampShape(now);
    var a := Replace(workspaceName, " ", "_");
    var b := Replace(projectName, " ", "_");
    var name := a + "." + b + "." + Stamp(now) + ".json";
    assert name == a + ("." + (b + ("." + (Stamp(now) + ".json"))));
  }

  /** The file name has no spaces and ends in `.json`, the suffix the template listing filters on. */
  lemma FileNameListed(workspaceName: string, projectName: string, now: DateTime)
    ensures NoChar(TemplateFileName(workspaceName, projectName, now), ' ')
    ensures var name := TemplateFileName(workspaceName, projectName, now);
      |name| >= 5 && name[|name| - 5..] == ".json"
  {
    FileNameShape(workspaceName, projectName, now);
    StampShape(now);
    var name := TemplateFileName(workspaceName, projectName, now);
    var w := |workspaceName|;
    var q := |projectName|;
    forall i | 0 <= i < |name|
      ensures name[i] != ' '
    {
      if i < w {
        assert name[i] == (if workspaceName[i] == ' ' then '_' else workspaceName[i]);
      } else if i == w || i == w + 1 + q {
      } else if i < w + 1 + q {
        var j := i - w - 1;
        assert name[w + 1 + j] == (if projectName[j] == ' ' then '_' else projectName[j]);
      } else if i < w + q + 17 {
        var j := i - (w + q + 2);
        assert name[i] == name[w + q + 2..w + q + 17][j] == Stamp(now)[j];
        assert j == 8 || IsDigit(Stamp(now)[j]);
      } else {
        assert name[i] == name[w + q + 17..][i - (w + q + 17)];
      }
    }
  }
}
