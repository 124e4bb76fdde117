# Motion task templating, modelled in Dafny

`task_templating.py` is a command-line helper for the Motion task API. It has
two halves:

- **Snapshot.** It pulls the tasks of one project and keeps a template of
  them. Each task is reduced to its name, workspace, due date, duration and
  priority, with defaults filled in. The template is written to
  `templates/<workspace>.<project>.<YYYYMMDD_HHMMSS>.json`.
- **Replay.** It reads such a template back and creates one task per entry.
  - Each due date can be moved by a number of days.
  - The tasks can be attached to a freshly created project.
  - They can be given an auto-schedule block.
  - The tasks are submitted one at a time. Every submission is followed by an
    8-second sleep, to stay under the API's rate limit.
  - Successes and failures are counted, and nothing is retried.

This project models the logic of those two halves. The modules are:

- `IsoTime` (`isotime.dfy`): the part of Python's `datetime` that the program
  relies on.
  - `fromisoformat` and `isoformat`.
  - Adding whole days, with Python's OverflowError bounds.
  - The `Z` ↔ `+00:00` replacements wrapped around those calls.
  - The `strftime` stamp.
- `Text` (`text.dfy`): decimal digits, `str.replace`, ASCII `upper`/`lower`,
  `strip` and `int(str)`.
- `FieldDeriver` (`deriver.dfy`): how one template entry and the run's answers
  become the create-task request. It also covers the exceptions that
  derivation can raise.
- `Dispatcher` (`dispatcher.dfy`):
  - the template check;
  - the rate-limited loop, as a method whose loop invariants tie it to a
    replay function;
  - properties of the replay: accounting, order, no retry, and where it stops.
- `TemplateSnapshot` (`snapshot.dfy`): the mapping loop of
  `generate_task_template`, the template file name, and the fact that a
  snapshot replays.
- `Prompts` (`prompts.dfy`): the typed answers.
  - The day offset.
  - The priority normalisation.
  - The y/n questions.
  - The numbered menus, with their choice bound.
- `ProjectCreation` (`project.dfy`): the request `create_project` posts, and
  the project id the replay then attaches.
- `Scenario` (`scenario.dfy`): a two-task replay worked out end to end.
- `JsonValues`, `Wrappers`: JSON values with Python truthiness, plus Option and
  Result.

The outside world is turned into parameters:

- **Clock:** `clock(i)` holds the two `utcnow()` readings that iteration `i`
  may take.
- **API:** `gateway(i)` is the response to the `i`-th submission.
- **Answers:** a `RunParams` value holds the run's answers.
- **Exceptions:** an exception that escapes the loop ends the run as
  `Raised(tally, error)`.

## Model

| member | source | states |
|---|---|---|
| FieldDeriver.BuildRequest | task_templating.py:281-316 | The loop body builds the five-key dict, then adds `projectId` and `autoScheduled` in place. The result is exactly the object the derivation specifies, or the exception it raises. |
| FieldDeriver.Derive | task_templating.py:281-316 | The request for one entry, or the exception its processing raises. A non-object entry raises AttributeError at `.get`. The due date is worked out before `name` and `priority` are looked up. Its properties are stated by BuildRequest, RequiredFields, ProjectRule, ScheduleRule and DeriveFromRun. |
| FieldDeriver.DueDate | task_templating.py:281-291 | The entry's date (or the default) is read after `Z` → `+00:00`, moved by delta days and serialized. It falls back to the unshifted utcnow reading when the text does not parse. Stated by DueDateShifted, DueDateFallback, DueDateNotText and DueDateDefault. |
| FieldDeriver.BodyKeys | task_templating.py:294-316 | The posted object has the five required keys, plus `projectId` only when a project id is set and `autoScheduled` only when a block applies. Absent fields are omitted, never sent as null. |
| FieldDeriver.BodyFields | task_templating.py:294-316 | Each posted field is the request's corresponding value. |
| FieldDeriver.RequiredFields | task_templating.py:294-300 | `name` and `priority` come from the entry; a missing name raises KeyError before a missing priority. `duration` is the entry's or 30. The workspace is the run's. |
| FieldDeriver.ProjectRule | task_templating.py:302-303 | `projectId` is sent, carrying the run's id, if and only if that id is truthy. |
| FieldDeriver.DeriveFromRun | task_templating.py:294-316 | The workspace id, project id and auto-schedule block come from the run, not from the entry. |
| FieldDeriver.ScheduleRule | task_templating.py:305-316 | A picked schedule takes precedence over the auto-schedule flag. The flag alone gives "Work Hours"; with neither, there is no block. The block is always SOFT, and its startDate is the naive reading, with no `Z`. |
| FieldDeriver.DueDateShifted | task_templating.py:281-291 | When the date text parses, the dueDate sent reads back as that instant moved by delta days, keeping the time of day and the offset. It raises OverflowError exactly when the move overflows. |
| FieldDeriver.DueDateFallback | task_templating.py:284-291 | An unparsable date falls back to the utcnow reading, unshifted and without `Z`, and the run goes on. |
| FieldDeriver.DueDateNotText | task_templating.py:281-286 | A dueDate that is not a string raises AttributeError. |
| FieldDeriver.DueDateDefault | task_templating.py:281-286 | An entry without a dueDate is due at the default instant moved by delta days. |
| FieldDeriver.DefaultDueDateReads | task_templating.py:281-282 | The default `2024-12-31T23:59:59Z` reads as the last second of 2024, UTC. |
| FieldDeriver.NaiveSerialized | task_templating.py:289-291 | Serializing a naive reading gives `isoformat`'s text, with no `Z`. |
| Dispatcher.CreateTasksFromTemplate | task_templating.py:218-331 | The template check, then the loop. The outcome equals the replay specification, successes plus failures equal the submissions, and there is one sleep per submission. |
| Dispatcher.Run | task_templating.py:218-331 | A whole run: the template check, then the replay of its entries. Stated by RunRejects, RunMalformed, RunIsReplay and RunAccounting, and realised by CreateTasksFromTemplate. |
| Dispatcher.Refuses | task_templating.py:220-222 | `not template or "tasks" not in template`. `in` is tested on an object's keys, a list's items or a string's text, and raises TypeError on a truthy number or boolean. Stated by RunRejects and RunMalformed. |
| Dispatcher.Entries | task_templating.py:279-281 | `enumerate(template["tasks"])`: a list gives its items, and an empty string or object gives nothing. A non-empty one gives a `str`, which has no `.get`. Anything else is not iterable. Stated by RunMalformed. |
| Dispatcher.TaskList | task_templating.py:279 | `template["tasks"]` on an accepted template: only an object can be indexed by "tasks". Stated by RunMalformed and RunIsReplay. |
| Dispatcher.Dispatch | task_templating.py:272-331 | The loop with its counters; the invariants keep it equal to the first `i` replay steps. One sleep follows every submission, the last included. The loop stops at the first entry that raises. |
| Dispatcher.BuildAt | task_templating.py:279-316 | Iteration `i` builds request `i` with the clock readings of iteration `i`. |
| Dispatcher.Requests | task_templating.py:279-316 | There is one request per entry. |
| Dispatcher.Replay | task_templating.py:279-331 | A replay never ends as a rejection. |
| Dispatcher.ReplayStep | task_templating.py:279-329 | One iteration after a run that has not raised either posts request `i` and counts its response, or raises request `i`'s exception. |
| Dispatcher.ReplayStopped | task_templating.py:279-329 | Once an exception has escaped, no later iteration happens. |
| Dispatcher.ReplayAccounting | task_templating.py:272-331 | Successes plus failures equal the submissions, and submission `k` is request `k`. A finished run made `n` submissions. A raised run stopped at the first request that raised. |
| Dispatcher.ReplaySuccesses | task_templating.py:321-327 | The successes are exactly the responses that are objects carrying an `id`; every other response is a failure. |
| Dispatcher.ReplayIgnoresResponses | task_templating.py:318-329 | There is no retry and no early stop: what is submitted, and how the run ends, does not depend on the responses. |
| Dispatcher.ReplayFinishes | task_templating.py:279-331 | The run gets through all entries if and only if none of them raises. |
| Dispatcher.RunRejects | task_templating.py:220-222 | A falsy template, or an object without "tasks", is refused before anything is sent. An object with "tasks" is not refused. |
| Dispatcher.RunMalformed | task_templating.py:220-281 | A truthy number or boolean template raises TypeError at the `in` test. A list or string holding "tasks" passes it, then raises TypeError at `template["tasks"]`. `"tasks"` bound to null, a number or a boolean raises TypeError at `enumerate`. A non-empty string or object there raises AttributeError. An empty one submits nothing. In every case nothing is posted. |
| Dispatcher.RunIsReplay | task_templating.py:220-331 | The template `{"tasks": tasks}` is accepted and its tasks are replayed in order. |
| Dispatcher.RunAccounting | task_templating.py:272-331 | This is the whole run over a task list. It states the accounting, the success criterion, submission `k` = the body derived from task `k`, and that the run finishes if and only if every task derives. |
| TemplateSnapshot.SnapshotEntry | task_templating.py:126-132 | An entry has exactly the five keys and the workspace's id. Each other field is the task's own or its default: "", `2024-12-31T23:59:59Z`, 30, MEDIUM. A non-object task raises AttributeError. |
| TemplateSnapshot.GenerateTaskTemplate | task_templating.py:119-139 | The append loop builds exactly the mapped entries, in order, wraps them as `{"tasks": …}` and names the file. It raises as the first non-object task does. |
| TemplateSnapshot.TemplateEntries | task_templating.py:124-133 | The entries of the mapping loop, or the first non-object task's exception. Stated by MappingOrder, MappingTotal, EntriesShape and StoppedEntries. |
| TemplateSnapshot.TemplateFileName | task_templating.py:139 | The f-string of line 139. Stated by FileNameShape and FileNameListed. |
| TemplateSnapshot.StoppedEntries | task_templating.py:124-133 | Once the mapping has raised, longer prefixes raise the same exception. |
| TemplateSnapshot.MappingOrder | task_templating.py:124-133 | There is one entry per task, in the same order, and entry `k` is task `k`'s. |
| TemplateSnapshot.MappingTotal | task_templating.py:124-133 | The snapshot is made if and only if every task is an object; otherwise AttributeError. |
| TemplateSnapshot.EntriesShape | task_templating.py:126-132 | Every entry has exactly the five keys and the workspace's id. |
| TemplateSnapshot.SnapshotReplays | task_templating.py:124-137 | A snapshot is never refused and lists one entry per task. No entry raises KeyError; each derives exactly when its due date does. Each request keeps the entry's name, priority and duration. |
| TemplateSnapshot.EntryReplay | task_templating.py:294-300 | An entry with the five keys derives exactly when its due date does, and keeps its own fields. |
| TemplateSnapshot.StampShape | task_templating.py:122 | The stamp is 15 characters: 8 digits, `_`, 6 digits. |
| TemplateSnapshot.FileNameShape | task_templating.py:139 | The name is the workspace name, `.`, the project name, `.`, the stamp, `.json`. Each name keeps its length, with spaces turned into `_`. |
| TemplateSnapshot.FileNameListed | task_templating.py:139 | The name has no spaces and ends in `.json`, the suffix the template listing (line 336) filters on. |
| Prompts.ParseDelta | task_templating.py:228-235 | The offset is `int(answer)` when that parses, and 0 when the answer is blank or `int` raises. |
| Prompts.DeltaRoundTrip | task_templating.py:228-235 | `str(n)` typed as the answer gives back exactly `n`, negative numbers included. |
| Prompts.DeltaBlank | task_templating.py:228-235 | A blank or all-whitespace answer gives offset 0. |
| Text.IntTextRoundTrip | task_templating.py:230 | `int(str(n)) == n` for every integer. |
| Text.ParseInt | task_templating.py:230 | `int(str)` in base 10: surrounding whitespace, one sign, digits with single underscores between them. Anything else is None (ValueError). Stated by IntTextRoundTrip and, through ParseDelta, by DeltaBlank. |
| Prompts.NormalizePriority | task_templating.py:185-192 | The result is always one of ASAP/HIGH/MEDIUM/LOW. It is the upper-cased answer when that is one of them, and MEDIUM otherwise, blank answers included. |
| Prompts.PriorityIdempotent | task_templating.py:185-192 | A normalized priority normalizes to itself. |
| Prompts.PriorityIgnoresCase | task_templating.py:188-192 | The priority does not depend on the answer's case. |
| Prompts.YesAnswer | task_templating.py:237 | The answer means yes if and only if it is a single `y` or `Y` (the same test is at line 242). |
| Prompts.Choose | task_templating.py:71-72 | An item is picked if and only if `1 <= choice <= len(xs)`, and the pick is `xs[choice - 1]`, a listed item (the same bound is at lines 100-101, 264-265 and 361-362). |
| Prompts.MenuPicks | task_templating.py:257-266 | Menus pick only `xs[int(answer) - 1]`. The workspace and project menus never end without a pick. The schedule menu ends without one on a blank answer or 0. The template-file menu (lines 357-362) ends without one only on a blank answer. |
| Prompts.MenuNumbering | task_templating.py:65-72 | Typing the number an item was listed under (`i + 1`) picks that item, in every menu. |
| Prompts.ListedAnswer | task_templating.py:68-76 | One answer to the workspace or project menu (also lines 97-105). Stated by MenuPicks and MenuNumbering. |
| Prompts.ScheduleAnswer | task_templating.py:251-270 | One answer to the schedule menu. Stated by MenuPicks and MenuNumbering. |
| Prompts.TemplateFileAnswer | task_templating.py:352-366 | One answer to the template-file menu. Stated by MenuPicks and MenuNumbering. |
| ProjectCreation.ProjectDue | task_templating.py:194-196 | The project due date is utcnow moved by delta days; a delta of 0 leaves it unmoved. |
| ProjectCreation.ProjectRequest | task_templating.py:169-205 | The create-project payload, None for a blank name, OverflowError when the move overflows. Stated by ProjectRequestShape. |
| ProjectCreation.ProjectDueText | task_templating.py:194-198 | The project's due date carries no `Z` and reads back as the moved reading. |
| ProjectCreation.ProjectRequestShape | task_templating.py:169-205 | A blank name posts nothing. Otherwise the request has exactly name, workspaceId, priority and dueDate. Its priority is one of the four. Its dueDate reads back as utcnow moved by delta days. It raises OverflowError exactly when that move overflows. |
| ProjectCreation.CreatedProjectId | task_templating.py:210-215 | The result is `response["id"]` when the response is an object with an id, and None otherwise. |
| ProjectCreation.ProjectFeedsTasks | task_templating.py:238-240 | The tasks carry `projectId` if and only if creation answered with a truthy id, and then carry that id. |
| IsoTime.AddDays | task_templating.py:285-286 | `+ timedelta(days=n)` keeps the time of day and the offset, moves the date by `n` calendar days and gives a valid value. It overflows exactly when `|n| > 999999999` or the moved date leaves years 1..9999. |
| IsoTime.AddDaysCompose | task_templating.py:285-286 | Adding `a` then `b` days equals adding `a + b` days. |
| IsoTime.AddDaysInverse | task_templating.py:285-286 | Subtracting the days that were added restores the value. |
| IsoTime.ParseIso | task_templating.py:285-286 | Whatever `fromisoformat` accepts is a valid datetime. |
| IsoTime.IsoRoundTrip | task_templating.py:285-291 | `fromisoformat(t.isoformat()) == t`. |
| IsoTime.SerializeZ | task_templating.py:291 | The sent text contains `Z` if and only if the value is aware and at UTC. |
| IsoTime.ReadSerialized | task_templating.py:285-291 | What the loop serializes, the loop reads back: `fromisoformat(s.replace("Z", "+00:00"))` of a serialized value is that value. |
| IsoTime.ReadIso | task_templating.py:285-286 | `fromisoformat(s.replace("Z", "+00:00"))`. Stated by ReadSerialized and DefaultDueDateReads. |
| IsoTime.Serialize | task_templating.py:291 | `isoformat().replace("+00:00", "Z")`. Stated by SerializeZ, ReadSerialized and NaiveSerialized. |
| IsoTime.Stamp | task_templating.py:122 | `strftime("%Y%m%d_%H%M%S")`. Stated by StampShape. |
| Scenario.QuietRun | task_templating.py:272-331 | With no project, no schedule and auto-scheduling off, every task that derives is submitted in order. Each request carries exactly the five fields, with its own priority and due date. |
| Scenario.TwoTaskReplay | task_templating.py:272-331 | Two tasks, HIGH and LOW, one without a due date and one with an invalid one, are replayed 3 days out. Exactly two submissions are made and `failures = 2 - successes`. Neither request has projectId or autoScheduled. The HIGH task is due `2025-01-03T23:59:59Z`, the LOW one at the fallback reading. |
| Scenario.FirstDueText | task_templating.py:281-291 | The first task's default date moved 3 days is sent as `2025-01-03T23:59:59Z`. |
| Scenario.ReplayScenario | task_templating.py:272-331 | The same two-task run, through the loop: it finishes with two submissions and two sleeps. |

## Left out

- HTTP is not modelled: `get_data`, `post_data`, the API key and the
  environment check. A submission's response is the parameter `gateway(i)`.
  A transport fault or bad status is `NoResponse`, and a response that is
  JSON but not an object is not modelled.
- `print`, `input` and the menu `while True` loops are left out. A menu is
  modelled as one answer's effect (pick, none, ask again).
- `main_menu` and the listing functions `list_workspaces`, `list_projects`,
  `list_schedules` and `get_tasks_for_project` are left out, because they are
  I/O. Their results enter the model as parameters.
- The file system is left out: `os.path.join`, `os.makedirs`, the JSON file
  write and read in `load_template`, and `list_template_files`. JSON key
  order, indentation and the `json.dump`/`json.load` round trip are not
  modelled. The template is the in-memory value.
- `time.sleep(8)` is counted (`sleeps`), not taken. Wall-clock spacing and
  the 12-per-minute rate are not modelled.
- `datetime.utcnow()` and `datetime.now()` are inputs, so the order of
  successive readings is not modelled. That includes a later task's
  startDate not preceding an earlier one's.
- `create_project` reads `utcnow()` twice when the delta is not 0 and
  discards the first reading. The model takes the reading that is kept.
- IsoTime.ParseIso models the `fromisoformat` of Python 3.7–3.10:
  - `YYYY-MM-DD`, then an optional one-character separator and
    `HH[:MM[:SS[.fff|.ffffff]]]`;
  - an optional `±HH:MM`.

  Seconds in the offset, week dates, and the wider grammar of Python 3.11+
  are not modelled.
- Text.ParseInt models `int(str)` on ASCII. It does not model non-ASCII
  digits or whitespace.
- Text.Upper and Text.Lower map ASCII letters only. Python's Unicode case
  mapping (for example `"ı".upper() == "I"`) is not modelled.
- The run's answers (offset, project, schedule, auto-schedule flag) are
  parameters. The source asks for them only after the template check, so
  on a rejected template they are never asked. The model ignores them in
  that case.
- The payload printed after a failed submission (line 326) is not modelled.
- Floating-point JSON numbers are left out: the JSON values hold integers only. A template
  with `"duration": 30.5`, or a float template root (a truthy one makes
  line 220 raise TypeError), cannot be expressed.
- Names containing `/` are not modelled as paths. The file name is the one
  line 139 builds, and such a name makes it a path into a subdirectory.
  The write at line 146 then fails and the error is swallowed at
  lines 149-150. The model does not capture that failed write.
- Scenario.TwoTaskReplay covers one fixed pair of tasks, not every template
  of that shape.

## Behaviour worth noting

- The fallback dueDate (line 289) and the auto-schedule `startDate`
  (lines 307 and 313) come from the naive `utcnow()`. They are sent without
  a `Z` or an offset. `FieldDeriver.ScheduleRule`
  and `FieldDeriver.DueDateFallback` state this.
- A due date in the `Z` form is sent back with `Z`, and one with another
  offset keeps that offset (IsoTime.SerializeZ). Only UTC values get the
  literal `Z`.
- An exception while deriving an entry (a missing `name` or `priority`, a
  non-string `dueDate`, an overflowing move) is not caught. It ends the
  whole run, and the summary line is not printed.
