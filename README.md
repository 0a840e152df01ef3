# Roadmap document and vote ledger

This project models the core of a small roadmap application. An administrator
edits a roadmap. The public votes on its tasks.

The roadmap document is a tree:

- an ordered list of **sections**;
- each section holds a map of **phases**;
- each phase holds a map of **weeks**, beside its own `title` and `order`;
- each week holds an ordered list of **tasks**.

The model covers:

- the admin page's structural edits of that tree: activate, add and delete a
  section, phase, week or task; saving the edit form; toggling completion;
  moving a task up or down; dragging a task from one week to another;
- the statistics the pages show: task, completion and vote counts, the
  completion percentage, the five most voted pending tasks, and a week's tasks
  sorted by votes;
- the client-side vote (`voteForTask`), with its ledger of vote keys that
  allows one vote per key;
- the admin secret check;
- the Express back end's handlers over the stored document, the per-user vote
  ledgers and the last-update timestamp;
- the public page: the vote outcome, the vote eligibility rule, its own
  statistics and the display order of phases and weeks.

Modules, one per source file, plus a shared one:

- `Roadmap` (`roadmap.dfy`) holds the shared parts:
  - the tree datatypes;
  - the lookups that every handler runs (`find`, `findIndex` and the key
    lookups);
  - the one-week write-back that every in-place edit amounts to;
  - the statistics fold `DocTally`;
  - the vote increment that the client and the server both perform.
- `TreeEdits` (`tree_edits.dfy`) defines every admin edit as a function from
  the document before to the document after. The lemmas there state what
  each edit promises.
- `AdminRoadmap` (`admin_roadmap.dfy`) is the admin page as a class:
  - its fields are the open tab, the edit in progress and the dragged task;
  - it works over the shared store;
  - its handlers perform the edits step by step;
  - each handler is proved to leave exactly the document the matching
    `TreeEdits` function describes.
- `AdminRoadmapUtils` (`admin_roadmap_utils.dfy`) holds:
  - `calculateStats`, as nested loops proved against the folds;
  - `sortTasksByVotes`;
  - `createEmptyTask`.
- `RoadmapContext` (`roadmap_context.dfy`) holds:
  - the store class, with the document and the ledger of vote keys;
  - `voteForTask`;
  - the vote key and its collision;
  - `checkAdminAccess`.
- `Server` (`server.dfy`) is the back end as a class. Its fields are the
  document, the ledgers and the timestamp.
- `PublicRoadmap` (`public_roadmap.dfy`) holds:
  - the public page as a class;
  - the vote key and the eligibility rule;
  - the page's own `calculateStats`, proved to agree with the admin one;
  - the phase and week ordering.

How the JavaScript values are represented:

- A phase's week entries live in a `weeks` map. Its `title` and `order` are
  separate fields. The source mixes them into one object and filters out the
  two reserved keys wherever it lists weeks; this representation captures
  that filtering.
- `votes` is a `Votes` value: `Absent`, `Null`, `NaN` or `Count(n)`.
  - `task.votes || 0` reads all but `Count(n)` as 0.
  - `votes += 1` turns null into 1, and an absent or NaN count into NaN.
- `JSON.parse(JSON.stringify(…))` is `Roadmap.JsonCopy`. It keeps the whole
  tree and turns every NaN count into null. `voteForTask`, `saveEdit`,
  `addTask` and `handleDrop` edit such a copy, and the `localStorage` round
  trip performs one.
- Generated ids and clock values are parameters.
- `window.confirm` is a `confirmed` parameter.
- The files the server writes are modelled by the fields they mirror.

## Model

| member | source | states |
|---|---|---|
| Roadmap.FindFirst | src/components/AdminRoadmap.jsx:56 | the search behind `find` and `findIndex`: the index of the first element the test holds for, and None exactly when it holds for none |
| Roadmap.FindFirstSameHits | src/components/AdminRoadmap.jsx:56 | two searches whose tests agree element by element give the same result |
| Roadmap.FindSection | src/components/AdminRoadmap.jsx:56 | `sections.find` by id: the index of the first section with the id, and None exactly when no section has it |
| Roadmap.FindTask | src/components/AdminRoadmap.jsx:143 | `tasks.findIndex` by id: the first task with the id, and None (-1) exactly when none has it |
| Roadmap.FindActive | src/components/AdminRoadmap.jsx:12 | `sections.find(s => s.active)`: the first active section, None when no section is active |
| Roadmap.InitialActive | src/components/AdminRoadmap.jsx:11-13 | the opening tab: the first active section's id when it is non-empty; the first section's id when that id is empty or no section is active; None exactly when there are no sections; always an id of the document |
| Roadmap.LookupSection | src/components/AdminRoadmap.jsx:56 | the section scan returns exactly what `FindSection` specifies |
| Roadmap.LookupTask | src/components/AdminRoadmap.jsx:143 | the task scan returns exactly what `FindTask` specifies |
| Roadmap.Resolve | src/components/AdminRoadmap.jsx:278-280 | the section, phase and week lookup chain succeeds exactly when the first section with the id has that phase and week |
| Roadmap.LookupWeek | src/components/AdminRoadmap.jsx:278-280 | the lookup chain as the handlers run it returns exactly `Resolve` |
| Roadmap.PutSection | src/components/AdminRoadmap.jsx:103 | replacing section i changes no other section and keeps the length |
| Roadmap.PutWeek | src/components/AdminRoadmap.jsx:131-137 | storing a week: that week is the new one, and every other section, phase and week, and the phase's title and order, stay as they were |
| Roadmap.TasksTally | src/components/AdminRoadmapUtils.js:32-35 | a week's tally counts each of its tasks once, and never more completed tasks than tasks |
| Roadmap.WeeksTally | src/components/AdminRoadmapUtils.js:30-31 | the fold over a phase's weeks (never `title`/`order`) keeps completed ≤ total |
| Roadmap.PhasesTally | src/components/AdminRoadmapUtils.js:29 | the fold over a section's phases keeps completed ≤ total |
| Roadmap.SectionsTally | src/components/AdminRoadmapUtils.js:28 | the fold over the sections keeps completed ≤ total |
| Roadmap.DocTally | src/components/AdminRoadmapUtils.js:28-53 | the document's statistics: `completedTasks ≤ totalTasks`, both non-negative |
| Roadmap.WeeksTallyAnyKey | src/components/AdminRoadmapUtils.js:30 | the weeks fold does not depend on the key order: any week may be counted first |
| Roadmap.PhasesTallyAnyKey | src/components/AdminRoadmapUtils.js:29 | the phases fold does not depend on the key order: any phase may be counted first |
| Roadmap.RemoveWeekTally | src/components/AdminRoadmap.jsx:265 | taking a week out of a phase takes exactly its tasks out of the phase's tally |
| Roadmap.RemovePhaseTally | src/components/AdminRoadmap.jsx:232 | taking a phase out of a section takes exactly its weeks out of the section's tally |
| Roadmap.WeeksTallyPut | src/components/AdminRoadmap.jsx:131 | storing a week changes the phase's tally by the new week's tasks minus the old week's |
| Roadmap.PhasesTallyPut | src/components/AdminRoadmap.jsx:121 | storing a phase changes the section's tally by the new phase's weeks minus the old phase's |
| Roadmap.SectionsTallyPut | src/components/AdminRoadmap.jsx:103 | replacing a section changes the document's tally by the new section's phases minus the old one's |
| Roadmap.PutWeekTally | src/components/AdminRoadmap.jsx:154 | storing a week changes the document's statistics by the new week's tasks minus the old week's (an absent week counts as nothing) |
| Roadmap.TasksTallyAppend | src/components/AdminRoadmap.jsx:297 | appending tasks adds their tallies |
| Roadmap.TasksTallySnoc | src/components/AdminRoadmap.jsx:297 | appending one task adds its tally |
| Roadmap.TasksTallyUpdate | src/components/AdminRoadmap.jsx:147 | replacing one task changes the week's tally by the new task's minus the old one's |
| Roadmap.Bump | src/components/RoadmapContext.jsx:92 | `votes += 1` changes only `votes`: a number n becomes n+1 and null becomes 1; an absent or NaN count becomes NaN, which still reads as 0 |
| Roadmap.IncrementVote | backend/server.js:111-115 | when the section, phase, week or task is missing, the document is unchanged; otherwise the first task with the id gets `Bump`, and every other task, week, phase and section stays |
| Roadmap.IncrementVoteTally | backend/server.js:111-115 | an increment without a copy (the server's) never changes the task or completion counts, and raises the vote total by exactly 1 when it reaches a task whose count is a number or null (0 for an absent or NaN count) |
| Roadmap.JsonTask | src/components/RoadmapContext.jsx:87 | the JSON copy of a task: only a NaN count changes, into null; the count reads the same |
| Roadmap.JsonCopy | src/components/RoadmapContext.jsx:87 | the JSON copy of the document keeps every section in place with its id and its phase keys |
| Roadmap.JsonCopyResolve | src/components/RoadmapContext.jsx:87-89 | the lookups reach the same week in the copy, and that week is the copy of the original week |
| Roadmap.JsonCopyTargets | src/components/RoadmapContext.jsx:87-90 | a vote reaches a task of the copy exactly when it reaches one of the original, and it reaches the copy of that task |
| Roadmap.JsonTasksTally | src/components/RoadmapContext.jsx:87 | copying a week's tasks keeps its tally |
| Roadmap.JsonWeeksTally | src/components/RoadmapContext.jsx:87 | copying a phase's weeks keeps the fold over them |
| Roadmap.JsonPhasesTally | src/components/RoadmapContext.jsx:87 | copying a section's phases keeps the fold over them |
| Roadmap.JsonSectionsTally | src/components/RoadmapContext.jsx:87 | copying the sections keeps the fold over them |
| Roadmap.JsonCopyTally | src/components/AdminRoadmapUtils.js:28-53 | the JSON copy leaves every statistic as it was |
| Roadmap.JsonCopyTwice | src/components/RoadmapContext.jsx:54-55 | copying a copy changes nothing more, so a document restored from `localStorage` survives another round trip unchanged |
| TreeEdits.NatToString | src/components/AdminRoadmap.jsx:210 | the `${n}` of a template literal is a non-empty string of decimal digits |
| TreeEdits.NatToStringValue | src/components/AdminRoadmap.jsx:210 | reading the numeral back gives n |
| TreeEdits.NumberedKeysDistinct | src/components/AdminRoadmap.jsx:246 | `phase{a}` and `phase{b}` (or `semaine{a}` and `semaine{b}`) are distinct keys when a ≠ b |
| Roadmap.FindSectionSameIds | src/components/AdminRoadmap.jsx:56 | the section lookup depends only on the ids |
| Roadmap.FindTaskSameIds | src/components/AdminRoadmap.jsx:143 | the task lookup depends only on the ids |
| TreeEdits.ResolveAfterPutWeek | src/components/AdminRoadmap.jsx:278-280 | writing back an existing week changes no lookup result |
| TreeEdits.PutWeekSame | src/components/AdminRoadmap.jsx:154 | writing back the week that is already there changes nothing |
| TreeEdits.PutWeekTwice | src/components/AdminRoadmap.jsx:154 | of two writes to the same week, the second wins |
| TreeEdits.SectionsTallyPhasesOnly | src/components/AdminRoadmapUtils.js:28-29 | the statistics depend only on the sections' phases (not on id, title, colour or `active`) |
| TreeEdits.Activate | src/components/AdminRoadmap.jsx:41-44 | every section becomes itself with `active` set to whether its id is the chosen one, in the same order |
| TreeEdits.HandleSectionChangeSelects | src/components/AdminRoadmap.jsx:36-51 | after the change, a section is active exactly when its id is the chosen one; every other field, the order, the length and the statistics stay |
| TreeEdits.HandleSectionChangeOneActive | src/components/AdminRoadmap.jsx:41-44 | with distinct ids, at most one section is active afterwards, and it is the one with the chosen id |
| TreeEdits.HandleSectionChangeLastWins | src/components/AdminRoadmap.jsx:36-51 | two changes in a row are the last one alone |
| TreeEdits.AddSectionShape | src/components/AdminRoadmap.jsx:164-187 | the appended section has the given id, is inactive, and holds only `phase1` (order 1) with only the empty `semaine1`; the statistics are unchanged |
| TreeEdits.SectionsTallyAppend | src/components/AdminRoadmap.jsx:185 | appending a section adds its phases' tally |
| TreeEdits.FilterSections | src/components/AdminRoadmap.jsx:192 | deleteSection's filter: no section with the id remains, every other section is kept, nothing is added, and without the id nothing changes |
| TreeEdits.FilterSectionsAppend | src/components/AdminRoadmap.jsx:192 | the filter keeps the order of the sections it keeps (it distributes over concatenation) |
| TreeEdits.AddPhaseKey | src/components/AdminRoadmap.jsx:205-223 | on a section with n phases, key `phase{n+1}` holds a phase titled "Nouvelle Phase" with order n+1 and one empty week `semaine1`; the key set gains exactly that key; every other phase, the section's other fields and every other section stay |
| TreeEdits.AddPhaseGrows | src/components/AdminRoadmap.jsx:205-223 | with a free key `phase{n+1}`, the section gains exactly one phase and keeps every other phase; the statistics are unchanged |
| TreeEdits.NewPhaseTally | src/components/AdminRoadmap.jsx:211-219 | a new phase holds no task |
| TreeEdits.AddPhaseOverwrites | src/components/AdminRoadmap.jsx:210-211 | after a deletion, `phase{n+1}` can be taken: with `phase1` and `phase3`, adding a phase replaces `phase3` and the section still has two phases |
| TreeEdits.FreeNumber | src/components/AdminRoadmap.jsx:210 | the first number from m on whose numbered key is free: its key is not taken, and every key between m and it is |
| TreeEdits.AddPhaseFreshGrows | src/components/AdminRoadmap.jsx:210-219 | with the first free key, adding a phase always grows the section by exactly one new phase (`NewPhase(n+1)`), keeps every other phase and leaves the statistics unchanged |
| TreeEdits.DeletePhaseTally | src/components/AdminRoadmap.jsx:225-237 | deletePhase drops the key and keeps every other phase; the statistics lose exactly that phase's tasks |
| TreeEdits.AddWeekOverwrites | src/components/AdminRoadmap.jsx:245-248 | after a deletion, `semaine{m+1}` can be taken: with `semaine1` and `semaine3`, adding a week replaces `semaine3` and the phase still has two weeks |
| TreeEdits.AddWeekFreshGrows | src/components/AdminRoadmap.jsx:245-251 | with the first free key, adding a week always grows the phase by exactly one new week (`NewWeek(m+1)`), keeps every other week and leaves the statistics unchanged |
| TreeEdits.AddWeekShape | src/components/AdminRoadmap.jsx:239-256 | the new week is `semaine{m+1}`, titled `Semaine {m+1}`, order m+1, no tasks, where m counts the week keys; the phase's title and order stay; with a free key there is one more week and the statistics are unchanged |
| TreeEdits.DeleteWeekTally | src/components/AdminRoadmap.jsx:258-273 | deleting a week removes exactly its tasks from the statistics |
| TreeEdits.DeleteWeekRemoves | src/components/AdminRoadmap.jsx:264-269 | the phase loses that week key and nothing else: its other weeks, title and order, the other phases and the other sections stay |
| TreeEdits.PutPhaseTally | src/components/AdminRoadmap.jsx:269 | storing a phase changes the statistics by the new phase's weeks minus the old phase's |
| TreeEdits.AddTaskAppends | src/components/AdminRoadmap.jsx:280-297 | the week gets exactly one more task at its end, with the given id, not completed and 0 votes; the earlier tasks are unchanged |
| TreeEdits.AddTaskTally | src/components/AdminRoadmap.jsx:297 | addTask counts one more task, and no more completed tasks or votes |
| TreeEdits.FilterTasks | src/components/AdminRoadmap.jsx:316 | no task with the id remains, and the length drops by exactly the number of tasks with the id |
| TreeEdits.CountId | src/components/AdminRoadmap.jsx:316 | the number of tasks with the id is 0 exactly when none has it |
| TreeEdits.FilterTasksKeeps | src/components/AdminRoadmap.jsx:316 | the filter keeps every task without the id and adds none |
| TreeEdits.FilterTasksAppend | src/components/AdminRoadmap.jsx:316 | the filter keeps the order of the tasks it keeps |
| TreeEdits.FilterTasksSnoc | src/components/AdminRoadmap.jsx:417 | filtering a list with a known last task |
| TreeEdits.DeleteTaskRemoves | src/components/AdminRoadmap.jsx:309-320 | the week keeps exactly the tasks without the id: none with the id remains, every other task is still there, nothing is added, and the count drops by the number removed |
| TreeEdits.DeleteTaskCount | src/components/AdminRoadmap.jsx:316 | the document loses exactly as many tasks as the week held with that id |
| TreeEdits.ToggleTaskOnly | src/components/AdminRoadmap.jsx:323-336 | only `completed` of the first task with the id flips; its votes and every other task stay; the task and vote totals stay |
| TreeEdits.ToggleTaskTwice | src/components/AdminRoadmap.jsx:331 | toggling the same task twice restores the document |
| TreeEdits.Swap | src/components/AdminRoadmap.jsx:347 | the destructuring swap exchanges two tasks, keeps every other one and the multiset |
| TreeEdits.MoveTaskEnds | src/components/AdminRoadmap.jsx:339-354 | "up" from a task that is not first swaps it with the one before, "down" from one that is not last with the one after; going up from the first place, down from the last, or in any other direction leaves the document unchanged |
| TreeEdits.MoveTaskPermutes | src/components/AdminRoadmap.jsx:339-354 | a move keeps the week's tasks as a multiset (and so its length) and every statistic |
| TreeEdits.SwapTally | src/components/AdminRoadmap.jsx:347-350 | exchanging two tasks keeps the week's tally |
| TreeEdits.PutSwapped | src/components/AdminRoadmap.jsx:347-350 | writing back a week with two tasks exchanged keeps the multiset and the statistics |
| TreeEdits.MoveTaskUpDown | src/components/AdminRoadmap.jsx:345-350 | moving a task up and then down again restores the document |
| TreeEdits.SwapUpFind | src/components/AdminRoadmap.jsx:343-347 | after a task moves up it is found one place earlier |
| TreeEdits.DropTaskCount | src/components/AdminRoadmap.jsx:413-433 | a drop removes the tasks with the id from the source week and adds one to the destination: when both exist and the source held it once the count stays; when the destination is missing the task is gone |
| TreeEdits.DropTaskLands | src/components/AdminRoadmap.jsx:421-430 | after a drop onto an existing week, the dragged task is that week's last task |
| TreeEdits.SaveSectionReplaces | src/components/AdminRoadmap.jsx:91-109 | a section edit replaces the first section with the id by the form's fields, keeping its phases when the form has none; the other sections stay |
| TreeEdits.EditsOfMissingTargets | src/components/AdminRoadmap.jsx:209 | any edit aimed at a missing section, phase or week leaves the document unchanged |
| TreeEdits.SaveSectionKeepsPhases | src/components/AdminRoadmap.jsx:95-101 | a section form without phases keeps every section's phases and every statistic |
| TreeEdits.SavePhaseKeepsWeeks | src/components/AdminRoadmap.jsx:110-122 | a phase edit changes only the title and order: its weeks, the phase keys and the statistics stay |
| TreeEdits.SaveWeekKeepsTasks | src/components/AdminRoadmap.jsx:123-138 | a week edit sets title, order and badge and keeps the tasks (a missing week is created with none); the statistics stay |
| TreeEdits.SaveTaskPlaces | src/components/AdminRoadmap.jsx:139-156 | a task edit replaces the first task with the id in place, or appends the data when none has it; other tasks stay; the statistics change by exactly that task |
| AdminRoadmap.StartData | src/components/AdminRoadmap.jsx:54-72 | startEdit finds data exactly when the item exists (per kind); for a task, the found data is a task of that week with that id |
| AdminRoadmap.EditOf | src/components/AdminRoadmap.jsx:88-156 | saveEdit's branch follows the kind being edited: no edit when not editing; a section or task edit targets the edited id |
| AdminRoadmap.AddTaskEditLookupMisses | src/components/AdminRoadmap.jsx:302 | startEdit, run against the document before the push, finds nothing for a fresh task id |
| AdminRoadmap.AddTaskEditLookupFinds | src/components/AdminRoadmap.jsx:297-302 | looked up in the document after the push, the new task is found |
| AdminRoadmap.FreshTaskIdCopy | src/components/AdminRoadmap.jsx:277 | an id is fresh in the week of the JSON copy exactly when it is fresh in the original week |
| AdminRoadmap.AddTaskAppendsEmptyTask | src/components/AdminRoadmapUtils.js:81-92 | the task addTask appends is exactly the blank task createEmptyTask builds for that week and id |
| AdminRoadmap.KeepOthers | src/components/AdminRoadmap.jsx:316 | the filter loop returns exactly `FilterTasks` |
| AdminRoadmap.ApplySectionForm | src/components/AdminRoadmap.jsx:91-109 | the section branch yields exactly `SaveSection`, and reports whether the section was found |
| AdminRoadmap.ApplyPhaseForm | src/components/AdminRoadmap.jsx:110-122 | the phase branch yields exactly `SavePhase` |
| AdminRoadmap.ApplyWeekForm | src/components/AdminRoadmap.jsx:123-138 | the week branch yields exactly `SaveWeek` |
| AdminRoadmap.ApplyTaskForm | src/components/AdminRoadmap.jsx:139-156 | the task branch yields exactly `SaveTask` |
| AdminRoadmap.AdminPage.constructor | src/components/AdminRoadmap.jsx:11-24 | the page opens on `InitialActive`, not editing, with nothing dragged |
| AdminRoadmap.AdminPage.HandleSectionChange | src/components/AdminRoadmap.jsx:36-51 | the tab becomes the chosen id and the document becomes `HandleSectionChange`; the ledger and the rest of the page state stay |
| AdminRoadmap.AdminPage.StartEdit | src/components/AdminRoadmap.jsx:54-79 | the editor opens on the item's data when it exists, and is left as it was otherwise |
| AdminRoadmap.AdminPage.CancelEdit | src/components/AdminRoadmap.jsx:81-83 | the editor closes |
| AdminRoadmap.AdminPage.SaveEdit | src/components/AdminRoadmap.jsx:85-161 | the document becomes `SaveEdit` of the edit in progress, made on the JSON copy (so with no edit it becomes the copy); a renamed open section keeps the tab; the editor closes; the ledger stays |
| AdminRoadmap.AdminPage.AddSection | src/components/AdminRoadmap.jsx:164-187 | the document becomes `AddSection` |
| AdminRoadmap.AdminPage.DeleteSection | src/components/AdminRoadmap.jsx:189-203 | unconfirmed, nothing changes; confirmed, the document becomes `DeleteSection`, and an open tab on it moves to the first remaining section |
| AdminRoadmap.AdminPage.AddPhase | src/components/AdminRoadmap.jsx:205-223 | the document becomes `AddPhase` |
| AdminRoadmap.AdminPage.DeletePhase | src/components/AdminRoadmap.jsx:225-237 | unconfirmed, nothing changes; confirmed, the document becomes `DeletePhase` |
| AdminRoadmap.AdminPage.AddWeek | src/components/AdminRoadmap.jsx:239-256 | the document becomes `AddWeek` |
| AdminRoadmap.AdminPage.DeleteWeek | src/components/AdminRoadmap.jsx:258-273 | unconfirmed, nothing changes; confirmed, the document becomes `DeleteWeek` |
| AdminRoadmap.AdminPage.AddTask | src/components/AdminRoadmap.jsx:275-307 | as written: with a missing week nothing changes; otherwise the document becomes `AddTask` of the JSON copy, and the editor opens only if the old document already held a task with that id |
| AdminRoadmap.AdminPage.AddTaskAndEdit | src/components/AdminRoadmap.jsx:275-307 | corrected: the document changes as in `AddTask`, and with a fresh id the editor opens on the new task |
| AdminRoadmap.AdminPage.DeleteTask | src/components/AdminRoadmap.jsx:309-320 | unconfirmed, nothing changes; confirmed, the document becomes `DeleteTask` |
| AdminRoadmap.AdminPage.HandleTaskToggle | src/components/AdminRoadmap.jsx:323-336 | the document becomes `ToggleTask` |
| AdminRoadmap.AdminPage.MoveTask | src/components/AdminRoadmap.jsx:339-354 | the in-place swap leaves exactly `MoveTask` |
| AdminRoadmap.AdminPage.HandleDragStart | src/components/AdminRoadmap.jsx:357-367 | the dragged item records the source week and the task |
| AdminRoadmap.AdminPage.HandleDrop | src/components/AdminRoadmap.jsx:384-444 | without a dragged task, or dropped on its own week, the document is unchanged; otherwise it becomes `DropTask` of the JSON copy, with the dragged task itself uncopied; the drag is cleared either way |
| AdminRoadmap.AdminPage.HandleDragEnd | src/components/AdminRoadmap.jsx:446-451 | the drag is cleared |
| AdminRoadmapUtils.InsertDesc | src/components/AdminRoadmapUtils.js:77 | inserting into a list sorted by descending key keeps it sorted and adds exactly that element |
| AdminRoadmapUtils.SortDesc | src/components/AdminRoadmapUtils.js:56 | the sort returns a permutation of its input in non-increasing key order |
| AdminRoadmapUtils.SortTasksByVotes | src/components/AdminRoadmapUtils.js:76-78 | a permutation of the week's tasks in non-increasing vote order (a missing count as 0) |
| AdminRoadmapUtils.WeeksPendingAnyKey | src/components/AdminRoadmapUtils.js:30 | the pending-task fold over weeks does not depend on the key order |
| AdminRoadmapUtils.PhasesPendingAnyKey | src/components/AdminRoadmapUtils.js:29 | the pending-task fold over phases does not depend on the key order |
| AdminRoadmapUtils.TasksPendingLocated | src/components/AdminRoadmapUtils.js:38-47 | each entry gathered from a week carries that place and a pending task of it |
| AdminRoadmapUtils.WeeksPendingLocated | src/components/AdminRoadmapUtils.js:38-47 | each entry gathered from a phase names one of its weeks, under that week's title, holding the task |
| AdminRoadmapUtils.PhasesPendingLocated | src/components/AdminRoadmapUtils.js:38-47 | each entry gathered from a section is located in it |
| AdminRoadmapUtils.PendingLocated | src/components/AdminRoadmapUtils.js:38-47 | each gathered entry names a section, phase and week of the document, under their titles, that hold the pending task |
| AdminRoadmapUtils.RoundedShare | src/components/AdminRoadmapUtils.js:64 | the rounded share lies in [0,100] and is within half a percent of 100·completed/total |
| AdminRoadmapUtils.Percentage | src/components/AdminRoadmapUtils.js:64 | 0 for an empty document; otherwise `round(100·completed/total)`, halves rounded up, in [0,100] |
| AdminRoadmapUtils.SortedSplit | src/components/AdminRoadmapUtils.js:56-59 | in a sorted list, the first n outrank every later element |
| AdminRoadmapUtils.LeftBehindOutvoted | src/components/AdminRoadmapUtils.js:59 | nothing the slice leaves behind has more votes than an entry it keeps |
| AdminRoadmapUtils.SortedPrefixIsTop | src/components/AdminRoadmapUtils.js:56-59 | the first k of a sorted permutation are a k-best selection: min(k, size) entries, sorted, drawn from the pool, never outvoted by what is left |
| AdminRoadmapUtils.TasksPendingAppend | src/components/AdminRoadmapUtils.js:38-39 | the pending entries of two lists of tasks add up |
| AdminRoadmapUtils.WeekStep | src/components/AdminRoadmapUtils.js:32-48 | one pass of the task loop adds the task's tally and, if pending, its entry |
| AdminRoadmapUtils.TallyWeek | src/components/AdminRoadmapUtils.js:32-49 | the task loop yields the week's tally and its pending entries |
| AdminRoadmapUtils.PhaseProgressStep | src/components/AdminRoadmapUtils.js:30-51 | visiting any remaining week keeps the phase loop's invariant |
| AdminRoadmapUtils.PhaseProgressDone | src/components/AdminRoadmapUtils.js:30-51 | with no week left, the phase loop has the phase's tally and entries |
| AdminRoadmapUtils.TallyPhase | src/components/AdminRoadmapUtils.js:30-51 | the week loop, in any key order, yields the phase's tally and pending entries |
| AdminRoadmapUtils.SectionProgressStep | src/components/AdminRoadmapUtils.js:29-52 | visiting any remaining phase keeps the section loop's invariant |
| AdminRoadmapUtils.SectionProgressDone | src/components/AdminRoadmapUtils.js:29-52 | with no phase left, the section loop has the section's tally and entries |
| AdminRoadmapUtils.TallySection | src/components/AdminRoadmapUtils.js:29-52 | the phase loop, in any key order, yields the section's tally and pending entries |
| AdminRoadmapUtils.DocProgressStep | src/components/AdminRoadmapUtils.js:28-53 | one section more keeps the document loop's invariant |
| AdminRoadmapUtils.DocProgressDone | src/components/AdminRoadmapUtils.js:28-53 | after the last section the loop holds the document's tally and all pending entries |
| AdminRoadmapUtils.DrawnEntriesLocated | src/components/AdminRoadmapUtils.js:38-47 | every entry drawn from the pending pool has a place in the document |
| AdminRoadmapUtils.CalculateStats | src/components/AdminRoadmapUtils.js:22-68 | totals equal the document's tally (completed ≤ total); the percentage is `Percentage`; the top list is the ≤5 most voted pending tasks, most votes first, each located in the document |
| AdminRoadmapUtils.CreateEmptyTask | src/components/AdminRoadmapUtils.js:81-92 | a blank task with the given id, not completed, 0 votes, carrying the given section, phase and week |
| PublicRoadmap.ByOrder | src/components/PublicRoadmap.jsx:162-163 | the sorted keys are a permutation of the given keys, all in the map, in ascending `order` |
| PublicRoadmap.PhaseOrder | src/components/PublicRoadmap.jsx:162-163 | phases are listed in ascending `order`, each given key once |
| PublicRoadmap.WeekOrder | src/components/PublicRoadmap.jsx:174-176 | weeks (never `title`/`order`) are listed in ascending `order`, each given key once |
| PublicRoadmap.PhaseOrderListsEachOnce | src/components/PublicRoadmap.jsx:162-163 | when the keys list every phase once, so does the sorted list |
| PublicRoadmap.WeeksLeftDone | src/components/PublicRoadmap.jsx:110-118 | with no week left, the counters hold the phase's figures |
| PublicRoadmap.PhasesLeftDone | src/components/PublicRoadmap.jsx:109-119 | with no phase left, the counters hold the section's figures |
| PublicRoadmap.WeeksTallyStep | src/components/PublicRoadmap.jsx:110-118 | visiting any remaining week keeps the week loop's invariant |
| PublicRoadmap.PhasesTallyStep | src/components/PublicRoadmap.jsx:109-119 | visiting any remaining phase keeps the phase loop's invariant |
| PublicRoadmap.TasksTallyStep | src/components/PublicRoadmap.jsx:112-116 | one pass of the task loop adds the task's tally |
| PublicRoadmap.CountWeek | src/components/PublicRoadmap.jsx:112-116 | the task loop's counters equal the week's tally |
| PublicRoadmap.CountPhase | src/components/PublicRoadmap.jsx:110-118 | the week loop's counters equal the phase's tally, in any key order |
| PublicRoadmap.CountSection | src/components/PublicRoadmap.jsx:109-119 | the phase loop's counters equal the section's tally, in any key order |
| PublicRoadmap.CalculateOverview | src/components/PublicRoadmap.jsx:103-128 | totals equal the document's tally (completed ≤ total); the percentage is 0 for an empty document, else the rounded share in [0,100] |
| PublicRoadmap.OverviewMatchesAdmin | src/components/PublicRoadmap.jsx:103-128 | the page's figures equal the admin statistics' for every document |
| PublicRoadmap.PublicPage.constructor | src/components/PublicRoadmap.jsx:7-10 | the page opens on `InitialActive` with the notice hidden |
| PublicRoadmap.PublicPage.HandleVote | src/components/PublicRoadmap.jsx:59-80 | the success notice exactly when the store accepted the vote (new key), "already voted" otherwise; the store changes as `VoteForTask` says: `IncrementVote` of the JSON copy |
| PublicRoadmap.PublicPage.ClickTask | src/components/PublicRoadmap.jsx:189-197 | a click votes only for an unvoted key of a pending task (key `section-phase-week-task`), and then the vote is always accepted; the vote goes to the first task with the clicked task's id |
| PublicRoadmap.ClickReachesClickedTask | src/components/PublicRoadmap.jsx:189-197 | with section ids and the week's task ids not repeated, a click votes for the clicked task itself, so a vote the rule allows never reaches a completed task |
| PublicRoadmap.ClickOnRepeatedIdReachesFirst | src/components/PublicRoadmap.jsx:189-197 | with a repeated task id, a click on the pending task votes for the completed task listed before it |
| PublicRoadmap.PublicPage.SelectSection | src/components/PublicRoadmap.jsx:149 | the tab becomes the clicked section |
| RoadmapContext.VoteKeyCollides | src/components/RoadmapContext.jsx:7-20 | a (section, phase) pair of the seed data and a made-up pair give the same vote key |
| RoadmapContext.SplitAtDash | src/components/RoadmapContext.jsx:78 | splitting at the first `-` is unique when the first part has none |
| RoadmapContext.VoteKeyInjective | src/components/RoadmapContext.jsx:78 | without `-` in the section, phase and week ids, equal keys mean equal coordinates |
| RoadmapContext.ClientVoteTally | src/components/RoadmapContext.jsx:86-96 | a client vote never changes the task or completion counts, and raises the vote total by exactly 1 when it reaches a task whose count is present (null, NaN or a number), 0 otherwise |
| RoadmapContext.ClientVoteCount | src/components/RoadmapContext.jsx:86-96 | the voted task ends with one more than it read before, a NaN count giving 1; only an absent count gives NaN |
| RoadmapContext.VoteKeyNotInherited | src/components/RoadmapContext.jsx:78-80 | no vote key names a member inherited from `Object.prototype`, so `userVotes[voteKey]` is exactly ledger membership |
| RoadmapContext.CheckAdminAccess | src/components/RoadmapContext.jsx:109-114 | true exactly for the secret `admin123` |
| RoadmapContext.RoadmapStore.constructor | src/components/RoadmapContext.jsx:52-61 | the store starts with the JSON copy of the document saved in `localStorage`, or the seed document when none is saved, and with the given ledger |
| RoadmapContext.RoadmapStore.VoteForTask | src/components/RoadmapContext.jsx:76-105 | true exactly for a key not in the ledger; a known key changes nothing; a new key gives `IncrementVote` of the JSON copy (just the copy if nothing is found) and records exactly that key |
| RoadmapContext.RoadmapStore.VoteTwice | src/components/RoadmapContext.jsx:80-104 | the second of two identical votes is refused, so together they do what one vote does |
| Server.HasChangesSinceLatest | backend/server.js:154 | a client that has seen the current timestamp is told nothing changed; an older one is told something did |
| Server.RoadmapServer.constructor | backend/server.js:32-53 | the state after loading: the stored document, the ledgers and the timestamp |
| Server.RoadmapServer.GetRoadmap | backend/server.js:57-63 | 404 exactly when no document is stored, else the stored document |
| Server.RoadmapServer.PutRoadmap | backend/server.js:66-82 | the body replaces the document, the timestamp becomes the clock value, the ledgers stay |
| Server.RoadmapServer.PostVote | backend/server.js:85-130 | any missing field gives 400 and no change; a key already in the ledger, or one naming a member inherited from `Object.prototype`, gives `success:false` and no change; a new key is recorded, the task gains a vote and the timestamp moves only when the task is found, and the reply is `success:true`; no ledger ever loses a key |
| Server.RoadmapServer.GetVotes | backend/server.js:133-148 | the user's ledger, the empty one for an unknown user |
| Server.RoadmapServer.CheckForUpdates | backend/server.js:151-164 | `hasChanges` exactly when `since < lastUpdateTimestamp` (a missing `since` is 0, NaN compares false); the timestamp is echoed; nothing changes |
| Server.RoadmapServer.PostVoteTwice | backend/server.js:101-103 | the same vote posted twice: the first succeeds exactly when the key is neither recorded nor inherited, the second gets `success:false`, so the task gains at most one vote |

## Left out

- Rendering, JSX, CSS classes and icons are left out, since they are presentation only. So are `handleDragEnter`/`handleDragOver` (the `destinationTarget` highlight) and the `sortByVotes` toggle.
- `window.confirm` becomes a `confirmed` parameter, because the answer comes from the user.
- The vote notice's 3-second hide timer is left out, because timers are outside the model.
- `console` logging is left out.
- The store's `localStorage` writes are left out. The constructor takes the document as it was last saved and restores its JSON copy; the ledger is taken as restored.
- `generateId` (built from `Date.now` and `Math.random`) and every `Date.now()` are parameters (`id`, `now`), because they are not deterministic.
- The files the server reads and writes (`fs`), the 500 error replies and the Express, cors and morgan wiring are left out. The stored data are fields of `RoadmapServer`.
- The ledger is keyed by the raw `userId`. The source stores it in the file ``path.join(VOTES_DIR, `${userId}.json`)``, so ids that name the same file, such as `a`, `./a` and `x/../a`, share one ledger there; path normalisation is not modelled.
- `Server.RoadmapServer.PostVote` replies `Outcome(true)` where the source replies 500 for a new vote whose week names an inherited or non-week property of the phase object, such as week `title`, `order` or `toString`, or phase `constructor` with week `name`. There `section.phases[phase][week]` is truthy, so `.tasks.findIndex` throws after the ledger was written. The model ends in the same state as the source but gives a different reply.
- `Server.RoadmapServer.GetRoadmap` returns the stored `Doc` as it is, NaN counts included. `res.json` sends those counts as `null`; the JSON serialisation of the reply is not modelled.
- `Server.RoadmapServer.PutRoadmap` does not model a null or malformed body, because JSON parsing is outside the model: any `Doc` is accepted, including one with a NaN count, which a parsed JSON body cannot hold.
- `AdminRoadmapUtils.Percentage` uses exact integer rounding with halves rounded up. The source computes `Math.round(c / t * 100)` in floating point, which can differ on a binary rounding edge.
- The keys of a phase or section map are visited in no particular order. JavaScript uses insertion order, so `AdminRoadmapUtils.CalculateStats` specifies the top five only up to ties in votes, as a best-five selection.
- `PublicRoadmap.ByOrder` and `AdminRoadmapUtils.SortDesc` are a stable insertion sort. They stand for `Array.prototype.sort`, whose order among equal keys is left unspecified here.
- `TreeEdits.MoveTask` and `AdminRoadmap.AdminPage.MoveTask` require the week and the task to exist. The source dereferences a missing week and throws, and with a missing task it writes `tasks[-1]` into the list. Neither is modelled.
- JavaScript truthiness of document fields is not modelled:
  - A week is assumed to have a `tasks` array; a missing one counts as empty.
  - A phase is assumed to have no week stored under the keys `title` or `order`.
- Some request-field values are not modelled: a missing request field and an empty one are both `""`, and a present but non-string value is not modelled.
- `AdminRoadmap.EditOf` gives no edit when the submitted form's kind differs from the kind being edited, because the page only ever shows the form of that kind.
- The dragged task's extra `fromSection`/`fromPhase`/`fromWeek` fields are not modelled. The model keeps the source slot beside the task, and the task that lands is the task as it was picked up.
- Shallow-copy aliasing is left out. Several admin handlers mutate the current state object in place (`{...roadmapData}` copies only the top level); the model treats every handler as producing a new document.
- Two effects of concurrency are left out, because handler calls are modelled as sequential:
  - `voteForTask` reading a stale `userVotes` from its closure;
  - the lost-update race between concurrent PUTs.
- One stale closure read is modelled: `addTask` runs `startEdit` against the document from before the push (see Findings).
- `src/firebase/firebase.js` is not part of this model. Its `addVote` reports success only when the task is found, unlike the server.
- The HTTP client `src/services/apiService.js` is not part of this model. Neither are `LocalStorageCleaner.jsx`, `AdminForms.jsx`, `TopVotedTasks.jsx`, `AdminRoadmapStyles.js` or the routing in `App.jsx`.

## Findings

| source | as written | input that shows it | evidently intended | confidence | as-written member | corrected member |
|---|---|---|---|---|---|---|
| src/components/AdminRoadmap.jsx:302 | `addTask` pushes the new task into a copy of the document, then calls `startEdit`. `startEdit` (lines 54-79) looks the task up in `roadmapData`, the state from before the push, so it finds nothing and the editor does not open. | any existing week and a freshly generated task id | the editor opens on the task just added, as the comment at line 301 says | medium, not executed | AdminRoadmap.AdminPage.AddTask, AdminRoadmap.AddTaskEditLookupMisses | AdminRoadmap.AdminPage.AddTaskAndEdit, AdminRoadmap.AddTaskEditLookupFinds |
| src/components/AdminRoadmap.jsx:210-211 | `addPhase` names the new phase `phase{n+1}`, n being the number of phases, and assigns it without checking the key. After a phase is deleted, that key can still be in use, and the existing phase is overwritten. | a section with phases `phase1` and `phase3` | the new phase gets a key not yet in use, and the section grows by one | medium, not executed | TreeEdits.AddPhase, TreeEdits.AddPhaseOverwrites | TreeEdits.AddPhaseFresh, TreeEdits.AddPhaseFreshGrows |
| src/components/AdminRoadmap.jsx:245-248 | `addWeek` names the new week `semaine{m+1}`, m being the number of weeks, and assigns it without checking the key. After a week is deleted, that key can still be in use, and the existing week and its tasks are overwritten. | a phase with weeks `semaine1` and `semaine3` | the new week gets a key not yet in use, and the phase grows by one | medium, not executed | TreeEdits.AddWeek, TreeEdits.AddWeekOverwrites | TreeEdits.AddWeekFresh, TreeEdits.AddWeekFreshGrows |
