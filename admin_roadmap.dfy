/// The admin page: its own state (the open tab, the edit in progress, the
/// task being dragged) over the shared store, and the handlers that edit the
/// stored document. Each handler performs its edit step by step and is proved
/// to leave exactly the document the matching function of TreeEdits
/// describes; the ledger of votes is never touched.
module AdminRoadmap {
  import opened Roadmap
  import opened TreeEdits
  import opened RoadmapContext
  import AdminRoadmapUtils

  /** Which kind of item an edit is about (`editMode.type`). */
  datatype Kind = SectionKind | PhaseKind | WeekKind | TaskKind

  /** What an edit form holds: a copy of the item when editing starts, the
      submitted values when it is saved. */
  datatype FormData =
    | SectionData(form: SectionForm)
    | PhaseData(title: string, order: int)
    | WeekData(title: string, order: int, badge: Option<string>)
    | TaskData(task: Task)

  /** `editMode`: nothing, or the item being edited and its form data. */
  datatype EditMode =
    | NotEditing
    | Editing(kind: Kind, sectionId: string, phase: string, week: string, taskId: string, data: FormData)

  /** `draggedItem`: the week a task was picked up from, and the task as it
      was then. */
  datatype Dragged = Dragged(from: Slot, task: Task)

  /** What `startEdit` finds for the item: a copy of the section (with its
      phases), the phase's or week's fields, or the first task with the id;
      None when the item is missing. */
  function StartData(doc: Doc, kind: Kind, sid: string, p: string, w: string, tid: string): (r: Option<FormData>)
    ensures kind == SectionKind ==> (r.Some? <==> FindSection(doc.sections, sid).Some?)
    ensures kind == PhaseKind ==>
              (r.Some? <==> FindSection(doc.sections, sid).Some? && HasPhase(doc, FindSection(doc.sections, sid).value, p))
    ensures kind == WeekKind ==> (r.Some? <==> Resolve(doc, sid, p, w).Some?)
    ensures kind == TaskKind ==> (r.Some? <==> Targets(doc, sid, p, w, tid))
    ensures kind == TaskKind && r.Some? ==>
              r.value.TaskData? && r.value.task.id == tid &&
              r.value.task in WeekAt(doc, Resolve(doc, sid, p, w).value, p, w).tasks
  {
    match FindSection(doc.sections, sid)
    case None => None
    case Some(i) =>
      var s := doc.sections[i];
      match kind
      case SectionKind => Some(SectionData(SectionForm(s.id, s.title, s.color, s.active, Some(s.phases))))
      case PhaseKind =>
        if p in s.phases then Some(PhaseData(s.phases[p].title, s.phases[p].order)) else None
      case WeekKind =>
        if HasWeek(doc, i, p, w) then
          var wk := WeekAt(doc, i, p, w);
          Some(WeekData(wk.title, wk.order, wk.badge))
        else None
      case TaskKind =>
        if HasWeek(doc, i, p, w) then
          var tasks := WeekAt(doc, i, p, w).tasks;
          match FindTask(tasks, tid)
          case Some(j) => Some(TaskData(tasks[j]))
          case None => None
        else None
  }

  /** The branch `saveEdit` takes: chosen by the kind being edited, fed with
      the submitted data (the page always shows the form of that kind). */
  function EditOf(mode: EditMode, data: FormData): (r: Edit)
    ensures mode.NotEditing? ==> r.NoEdit?
    ensures r.EditSection? ==> mode.Editing? && mode.kind == SectionKind && r.sectionId == mode.sectionId
    ensures r.EditTask? ==> mode.Editing? && mode.kind == TaskKind && r.taskId == mode.taskId && data.TaskData? && r.data == data.task
  {
    match mode
    case NotEditing => NoEdit
    case Editing(kind, sid, p, w, tid, _) =>
      match kind
      case SectionKind => if data.SectionData? then EditSection(sid, data.form) else NoEdit
      case PhaseKind => if data.PhaseData? then EditPhase(sid, p, data.title, data.order) else NoEdit
      case WeekKind => if data.WeekData? then EditWeek(sid, p, w, data.title, data.order, data.badge) else NoEdit
      case TaskKind => if data.TaskData? then EditTask(sid, p, w, tid, data.task) else NoEdit
  }

  /** The tab after a save: a saved section that was the open tab and was
      found stays open under its new id. */
  function TabAfterSave(doc: Doc, mode: EditMode, data: FormData, active: Option<string>): Option<string>
  {
    match EditOf(mode, data)
    case EditSection(sid, form) =>
      if FindSection(doc.sections, sid).Some? && active == Some(sid) then Some(form.id) else active
    case _ => active
  }

  /** The week exists and holds no task with the id. */
  predicate FreshTaskId(doc: Doc, sid: string, p: string, w: string, id: string)
  {
    Resolve(doc, sid, p, w).Some? &&
    CountId(WeekAt(doc, Resolve(doc, sid, p, w).value, p, w).tasks, id) == 0
  }

  /** `addTask` opens the editor through `startEdit`, which looks the new
      task up in the document as it was before the task was added: with a
      fresh id it finds nothing, so the editor does not open. */
  lemma AddTaskEditLookupMisses(doc: Doc, sid: string, p: string, w: string, id: string)
    requires FreshTaskId(doc, sid, p, w, id)
    ensures StartData(doc, TaskKind, sid, p, w, id).None?
  {
  }

  /** Looked up in the document after the addition, the new task is found. */
  lemma AddTaskEditLookupFinds(doc: Doc, sid: string, p: string, w: string, id: string)
    requires FreshTaskId(doc, sid, p, w, id)
    ensures StartData(AddTask(doc, sid, p, w, id), TaskKind, sid, p, w, id) == Some(TaskData(NewTask(id)))
  {
    var i := Resolve(doc, sid, p, w).value;
    var wk := WeekAt(doc, i, p, w);
    var tasks := wk.tasks + [NewTask(id)];
    var doc' := AddTask(doc, sid, p, w, id);
    ResolveAfterPutWeek(doc, i, p, w, wk.(tasks := tasks), sid, p, w);
    assert WeekAt(doc', i, p, w).tasks == tasks;
    assert FindTask(tasks, id) == Some(|wk.tasks|) by {
      assert forall j :: 0 <= j < |wk.tasks| ==> tasks[j] == wk.tasks[j];
      assert forall j :: 0 <= j < |wk.tasks| ==> tasks[j].id != id;
      assert tasks[|wk.tasks|].id == id;
    }
  }

  /** The JSON copy keeps the task ids, so an id is fresh in the copy exactly
      when it is fresh in the original. */
  lemma FreshTaskIdCopy(doc: Doc, sid: string, p: string, w: string, id: string)
    ensures FreshTaskId(JsonCopy(doc), sid, p, w, id) <==> FreshTaskId(doc, sid, p, w, id)
  {
    JsonCopyResolve(doc, sid, p, w);
    if Resolve(doc, sid, p, w).Some? {
      var tasks := WeekAt(doc, Resolve(doc, sid, p, w).value, p, w).tasks;
      assert forall k :: 0 <= k < |tasks| ==> JsonTasks(tasks)[k].id == tasks[k].id;
    }
  }

  /** The task `addTask` appends is the blank task `createEmptyTask` builds
      for the same week and id. */
  lemma AddTaskAppendsEmptyTask(doc: Doc, sid: string, p: string, w: string, id: string)
    requires Resolve(doc, sid, p, w).Some?
    ensures var i := Resolve(doc, sid, p, w).value;
            var blank := AdminRoadmapUtils.CreateEmptyTask(sid, p, w, id);
            && blank.sectionId == sid && blank.phase == p && blank.week == w
            && WeekAt(AddTask(doc, sid, p, w, id), i, p, w).tasks == WeekAt(doc, i, p, w).tasks + [blank.task]
  {
    var i := Resolve(doc, sid, p, w).value;
    var wk := WeekAt(doc, i, p, w);
    assert WeekAt(AddTask(doc, sid, p, w, id), i, p, w).tasks == wk.tasks + [NewTask(id)];
  }

  /** The filter `tasks.filter(t => t.id !== tid)` as a scan. */
  method KeepOthers(tasks: seq<Task>, tid: string) returns (r: seq<Task>)
    ensures r == FilterTasks(tasks, tid)
  {
    r := [];
    var k := 0;
    while k < |tasks|
      invariant 0 <= k <= |tasks|
      invariant r == FilterTasks(tasks[..k], tid)
    {
      assert tasks[..k + 1] == tasks[..k] + [tasks[k]];
      FilterTasksSnoc(tasks[..k], tasks[k], tid);
      if tasks[k].id != tid {
        r := r + [tasks[k]];
      }
      k := k + 1;
    }
    assert tasks[..k] == tasks;
  }

  /** The section branch of `saveEdit`: the form replaces the first section
      with the id, keeping its phases when the form has none. */
  method ApplySectionForm(doc: Doc, sid: string, form: SectionForm) returns (r: Doc, found: bool)
    ensures r == SaveSection(doc, sid, form)
    ensures found <==> FindSection(doc.sections, sid).Some?
  {
    r := doc;
    var i := LookupSection(doc.sections, sid);
    found := i.Some?;
    if found {
      var phases := doc.sections[i.value].phases;
      var updated := Section(form.id, form.title, form.color, form.active,
                             if form.phases.Some? then form.phases.value else phases);
      r := Doc(doc.sections[i.value := updated]);
    }
  }

  /** The phase branch of `saveEdit`: a copy of the phase with the new title
      and order. */
  method ApplyPhaseForm(doc: Doc, sid: string, p: string, title: string, order: int) returns (r: Doc)
    ensures r == SavePhase(doc, sid, p, title, order)
  {
    r := doc;
    var i := LookupSection(doc.sections, sid);
    if i.Some? && p in doc.sections[i.value].phases {
      var s := doc.sections[i.value];
      var existing := s.phases[p].(title := title, order := order);
      r := Doc(doc.sections[i.value := s.(phases := s.phases[p := existing])]);
    }
  }

  /** The week branch of `saveEdit`: the week (or a new one) with the new
      title, order and badge and the tasks it had. */
  method ApplyWeekForm(doc: Doc, sid: string, p: string, w: string, title: string, order: int,
                       badge: Option<string>) returns (r: Doc)
    ensures r == SaveWeek(doc, sid, p, w, title, order, badge)
  {
    r := doc;
    var i := LookupSection(doc.sections, sid);
    if i.Some? && p in doc.sections[i.value].phases {
      var weeks := doc.sections[i.value].phases[p].weeks;
      var tasks := if w in weeks then weeks[w].tasks else [];
      r := PutWeek(doc, i.value, p, w, Week(title, order, badge, tasks));
    }
  }

  /** The task branch of `saveEdit`: the data replaces the first task with
      the id, or is pushed at the end. */
  method ApplyTaskForm(doc: Doc, sid: string, p: string, w: string, tid: string, task: Task) returns (r: Doc)
    ensures r == SaveTask(doc, sid, p, w, tid, task)
  {
    r := doc;
    var i := LookupWeek(doc, sid, p, w);
    if i.Some? {
      var wk := doc.sections[i.value].phases[p].weeks[w];
      var tasks := wk.tasks;
      var j := LookupTask(tasks, tid);
      if j.Some? {
        tasks := tasks[j.value := task];
      } else {
        tasks := tasks + [task];
      }
      r := PutWeek(doc, i.value, p, w, wk.(tasks := tasks));
    }
  }

  class AdminPage {
    const store: RoadmapStore
    var activeSection: Option<string>
    var editMode: EditMode
    var draggedItem: Option<Dragged>

    constructor(store: RoadmapStore)
      ensures this.store == store
      ensures activeSection == InitialActive(store.roadmapData.sections)
      ensures editMode == NotEditing && draggedItem == None
    {
      this.store := store;
      activeSection := InitialActive(store.roadmapData.sections);
      editMode := NotEditing;
      draggedItem := None;
    }

    /** `handleSectionChange`: the tab and the stored `active` flags follow
        the chosen section. */
    method HandleSectionChange(sid: string)
      modifies this, store
      ensures activeSection == Some(sid)
      ensures store.roadmapData == TreeEdits.HandleSectionChange(old(store.roadmapData), sid)
      ensures store.userVotes == old(store.userVotes)
      ensures editMode == old(editMode) && draggedItem == old(draggedItem)
    {
      activeSection := Some(sid);
      store.roadmapData := Doc(Activate(store.roadmapData.sections, sid));
    }

    /** `startEdit`: opens the editor on the item with a copy of its data, or
        leaves the editor as it was when the item is missing. */
    method StartEdit(kind: Kind, sid: string, p: string, w: string, tid: string)
      modifies this
      ensures StartData(store.roadmapData, kind, sid, p, w, tid).None? ==> editMode == old(editMode)
      ensures StartData(store.roadmapData, kind, sid, p, w, tid).Some? ==>
                editMode == Editing(kind, sid, p, w, tid, StartData(store.roadmapData, kind, sid, p, w, tid).value)
      ensures activeSection == old(activeSection) && draggedItem == old(draggedItem)
    {
      var data := StartData(store.roadmapData, kind, sid, p, w, tid);
      if data.Some? {
        editMode := Editing(kind, sid, p, w, tid, data.value);
      }
    }

    /** `cancelEdit`. */
    method CancelEdit()
      modifies this
      ensures editMode == NotEditing
      ensures activeSection == old(activeSection) && draggedItem == old(draggedItem)
    {
      editMode := NotEditing;
    }

    /** `saveEdit`: applies the submitted data to a JSON copy of the document,
        which replaces it, keeps the tab on a renamed open section, and closes
        the editor. */
    method SaveEdit(data: FormData)
      modifies this, store
      ensures store.roadmapData == TreeEdits.SaveEdit(JsonCopy(old(store.roadmapData)), EditOf(old(editMode), data))
      ensures activeSection == TabAfterSave(old(store.roadmapData), old(editMode), data, old(activeSection))
      ensures editMode == NotEditing
      ensures store.userVotes == old(store.userVotes) && draggedItem == old(draggedItem)
    {
      var doc := JsonCopy(store.roadmapData);
      var edit := EditOf(editMode, data);
      match edit {
        case EditSection(sid, form) =>
          FindSectionSameIds(doc.sections, store.roadmapData.sections, sid);
          var found;
          doc, found := ApplySectionForm(doc, sid, form);
          if found && activeSection == Some(sid) {
            activeSection := Some(form.id);
          }
        case EditPhase(sid, p, title, order) =>
          doc := ApplyPhaseForm(doc, sid, p, title, order);
        case EditWeek(sid, p, w, title, order, badge) =>
          doc := ApplyWeekForm(doc, sid, p, w, title, order, badge);
        case EditTask(sid, p, w, tid, task) =>
          doc := ApplyTaskForm(doc, sid, p, w, tid, task);
        case NoEdit =>
      }
      store.roadmapData := doc;
      editMode := NotEditing;
    }

    /** `addSection`; `id` stands for the generated id. */
    method AddSection(id: string)
      modifies store
      ensures store.roadmapData == TreeEdits.AddSection(old(store.roadmapData), id)
      ensures store.userVotes == old(store.userVotes)
    {
      store.roadmapData := Doc(store.roadmapData.sections + [NewSection(id)]);
    }

    /** `deleteSection`, once confirmed: the section goes, and an open tab on
        it moves to the first remaining section. */
    method DeleteSection(sid: string, confirmed: bool)
      modifies this, store
      ensures !confirmed ==> store.roadmapData == old(store.roadmapData) && activeSection == old(activeSection)
      ensures confirmed ==> store.roadmapData == TreeEdits.DeleteSection(old(store.roadmapData), sid)
      ensures confirmed ==>
                activeSection == if old(activeSection) == Some(sid) && |store.roadmapData.sections| > 0
                                 then Some(store.roadmapData.sections[0].id) else old(activeSection)
      ensures store.userVotes == old(store.userVotes)
      ensures editMode == old(editMode) && draggedItem == old(draggedItem)
    {
      if !confirmed {
        return;
      }
      var updated := FilterSections(store.roadmapData.sections, sid);
      store.roadmapData := Doc(updated);
      if activeSection == Some(sid) && |updated| > 0 {
        activeSection := Some(updated[0].id);
      }
    }

    /** `addPhase`. */
    method AddPhase(sid: string)
      modifies store
      ensures store.roadmapData == TreeEdits.AddPhase(old(store.roadmapData), sid)
      ensures store.userVotes == old(store.userVotes)
    {
      var doc := store.roadmapData;
      var i := LookupSection(doc.sections, sid);
      if i.Some? {
        var s := doc.sections[i.value];
        var n := |s.phases|;
        s := s.(phases := s.phases[PhaseKey(n + 1) := NewPhase(n + 1)]);
        store.roadmapData := Doc(doc.sections[i.value := s]);
      }
    }

    /** `deletePhase`, once confirmed. */
    method DeletePhase(sid: string, p: string, confirmed: bool)
      modifies store
      ensures store.roadmapData == if confirmed then TreeEdits.DeletePhase(old(store.roadmapData), sid, p)
                                   else old(store.roadmapData)
      ensures store.userVotes == old(store.userVotes)
    {
      if !confirmed {
        return;
      }
      var doc := store.roadmapData;
      var i := LookupSection(doc.sections, sid);
      if i.Some? {
        var s := doc.sections[i.value];
        store.roadmapData := Doc(doc.sections[i.value := s.(phases := s.phases - {p})]);
      }
    }

    /** `addWeek`. */
    method AddWeek(sid: string, p: string)
      modifies store
      ensures store.roadmapData == TreeEdits.AddWeek(old(store.roadmapData), sid, p)
      ensures store.userVotes == old(store.userVotes)
    {
      var doc := store.roadmapData;
      var i := LookupSection(doc.sections, sid);
      if i.Some? && p in doc.sections[i.value].phases {
        var m := |doc.sections[i.value].phases[p].weeks|;
        store.roadmapData := PutWeek(doc, i.value, p, WeekKey(m + 1), NewWeek(m + 1));
      }
    }

    /** `deleteWeek`, once confirmed. */
    method DeleteWeek(sid: string, p: string, w: string, confirmed: bool)
      modifies store
      ensures store.roadmapData == if confirmed then TreeEdits.DeleteWeek(old(store.roadmapData), sid, p, w)
                                   else old(store.roadmapData)
      ensures store.userVotes == old(store.userVotes)
    {
      if !confirmed {
        return;
      }
      var doc := store.roadmapData;
      var i := LookupSection(doc.sections, sid);
      if i.Some? && p in doc.sections[i.value].phases {
        var s := doc.sections[i.value];
        var ph := s.phases[p];
        store.roadmapData := Doc(doc.sections[i.value := s.(phases := s.phases[p := ph.(weeks := ph.weeks - {w})])]);
      }
    }

    /** `addTask` as written: the task is appended to a JSON copy of the
        document, which replaces it, then `startEdit` runs against the
        document it started from. */
    method AddTask(sid: string, p: string, w: string, id: string)
      modifies this, store
      ensures Resolve(old(store.roadmapData), sid, p, w).None? ==> store.roadmapData == old(store.roadmapData)
      ensures Resolve(old(store.roadmapData), sid, p, w).Some? ==>
                store.roadmapData == TreeEdits.AddTask(JsonCopy(old(store.roadmapData)), sid, p, w, id)
      ensures Resolve(old(store.roadmapData), sid, p, w).None? ==> editMode == old(editMode)
      ensures Resolve(old(store.roadmapData), sid, p, w).Some? ==>
                var d := StartData(old(store.roadmapData), TaskKind, sid, p, w, id);
                editMode == if d.Some? then Editing(TaskKind, sid, p, w, id, d.value) else old(editMode)
      ensures store.userVotes == old(store.userVotes)
      ensures activeSection == old(activeSection) && draggedItem == old(draggedItem)
    {
      var before := store.roadmapData;
      var copy := JsonCopy(before);
      JsonCopyResolve(before, sid, p, w);
      var i := LookupWeek(copy, sid, p, w);
      if i.Some? {
        var wk := copy.sections[i.value].phases[p].weeks[w];
        store.roadmapData := PutWeek(copy, i.value, p, w, wk.(tasks := wk.tasks + [NewTask(id)]));
        var data := StartData(before, TaskKind, sid, p, w, id);
        if data.Some? {
          editMode := Editing(TaskKind, sid, p, w, id, data.value);
        }
      }
    }

    /** `addTask` with the editor opened on the task just added, as the
        handler means to do. */
    method AddTaskAndEdit(sid: string, p: string, w: string, id: string)
      modifies this, store
      ensures Resolve(old(store.roadmapData), sid, p, w).None? ==> store.roadmapData == old(store.roadmapData)
      ensures Resolve(old(store.roadmapData), sid, p, w).Some? ==>
                store.roadmapData == TreeEdits.AddTask(JsonCopy(old(store.roadmapData)), sid, p, w, id)
      ensures Resolve(old(store.roadmapData), sid, p, w).None? ==> editMode == old(editMode)
      ensures FreshTaskId(old(store.roadmapData), sid, p, w, id) ==>
                editMode == Editing(TaskKind, sid, p, w, id, TaskData(NewTask(id)))
      ensures store.userVotes == old(store.userVotes)
      ensures activeSection == old(activeSection) && draggedItem == old(draggedItem)
    {
      var before := store.roadmapData;
      var copy := JsonCopy(before);
      JsonCopyResolve(before, sid, p, w);
      var i := LookupWeek(copy, sid, p, w);
      if i.Some? {
        var wk := copy.sections[i.value].phases[p].weeks[w];
        var after := PutWeek(copy, i.value, p, w, wk.(tasks := wk.tasks + [NewTask(id)]));
        store.roadmapData := after;
        var data := StartData(after, TaskKind, sid, p, w, id);
        if FreshTaskId(before, sid, p, w, id) {
          assert after == TreeEdits.AddTask(copy, sid, p, w, id);
          assert data == Some(TaskData(NewTask(id))) by {
            FreshTaskIdCopy(before, sid, p, w, id);
            AddTaskEditLookupFinds(copy, sid, p, w, id);
          }
        }
        if data.Some? {
          editMode := Editing(TaskKind, sid, p, w, id, data.value);
        }
      }
    }

    /** `deleteTask`, once confirmed. */
    method DeleteTask(sid: string, p: string, w: string, tid: string, confirmed: bool)
      modifies store
      ensures store.roadmapData == if confirmed then TreeEdits.DeleteTask(old(store.roadmapData), sid, p, w, tid)
                                   else old(store.roadmapData)
      ensures store.userVotes == old(store.userVotes)
    {
      if !confirmed {
        return;
      }
      var doc := store.roadmapData;
      var i := LookupWeek(doc, sid, p, w);
      if i.Some? {
        var wk := doc.sections[i.value].phases[p].weeks[w];
        var kept := KeepOthers(wk.tasks, tid);
        store.roadmapData := PutWeek(doc, i.value, p, w, wk.(tasks := kept));
      }
    }

    /** `handleTaskToggle`. */
    method HandleTaskToggle(sid: string, p: string, w: string, tid: string)
      modifies store
      ensures store.roadmapData == TreeEdits.ToggleTask(old(store.roadmapData), sid, p, w, tid)
      ensures store.userVotes == old(store.userVotes)
    {
      var doc := store.roadmapData;
      var i := LookupWeek(doc, sid, p, w);
      if i.Some? {
        var wk := doc.sections[i.value].phases[p].weeks[w];
        var j := LookupTask(wk.tasks, tid);
        if j.Some? {
          var tasks := wk.tasks;
          tasks := tasks[j.value := tasks[j.value].(completed := !tasks[j.value].completed)];
          store.roadmapData := PutWeek(doc, i.value, p, w, wk.(tasks := tasks));
        }
      }
    }

    /** `moveTask`: the exchange of two neighbouring tasks in place. */
    method MoveTask(sid: string, p: string, w: string, tid: string, direction: string)
      requires Targets(store.roadmapData, sid, p, w, tid)
      modifies store
      ensures store.roadmapData == TreeEdits.MoveTask(old(store.roadmapData), sid, p, w, tid, direction)
      ensures store.userVotes == old(store.userVotes)
    {
      var doc := store.roadmapData;
      var i := LookupWeek(doc, sid, p, w);
      var wk := doc.sections[i.value].phases[p].weeks[w];
      var tasks := wk.tasks;
      var j := LookupTask(tasks, tid);
      var taskIndex := j.value;
      if direction == "up" && taskIndex > 0 {
        tasks := tasks[taskIndex := tasks[taskIndex - 1]][taskIndex - 1 := tasks[taskIndex]];
        store.roadmapData := PutWeek(doc, i.value, p, w, wk.(tasks := tasks));
      } else if direction == "down" && taskIndex < |tasks| - 1 {
        tasks := tasks[taskIndex := tasks[taskIndex + 1]][taskIndex + 1 := tasks[taskIndex]];
        store.roadmapData := PutWeek(doc, i.value, p, w, wk.(tasks := tasks));
      }
    }

    /** `handleDragStart`. */
    method HandleDragStart(from: Slot, task: Task)
      modifies this
      ensures draggedItem == Some(Dragged(from, task))
      ensures activeSection == old(activeSection) && editMode == old(editMode)
    {
      draggedItem := Some(Dragged(from, task));
    }

    /** `handleDrop` on week `to`: nothing without a dragged task or when it
        is dropped where it came from; otherwise the drop of TreeEdits, made
        on a JSON copy of the document (the dragged task itself is not
        copied), and the drag is over. */
    method HandleDrop(to: Slot)
      modifies this, store
      ensures old(draggedItem).None? ==> store.roadmapData == old(store.roadmapData) && draggedItem == None
      ensures old(draggedItem).Some? && old(draggedItem).value.from == to ==>
                store.roadmapData == old(store.roadmapData)
      ensures old(draggedItem).Some? && old(draggedItem).value.from != to ==>
                store.roadmapData == DropTask(JsonCopy(old(store.roadmapData)), old(draggedItem).value.from, to,
                                              old(draggedItem).value.task)
      ensures draggedItem == None
      ensures store.userVotes == old(store.userVotes)
      ensures activeSection == old(activeSection) && editMode == old(editMode)
    {
      if draggedItem.None? {
        return;
      }
      var from, task := draggedItem.value.from, draggedItem.value.task;
      if from != to {
        var doc := JsonCopy(store.roadmapData);
        var i := LookupWeek(doc, from.sectionId, from.phase, from.week);
        if i.Some? {
          var wk := doc.sections[i.value].phases[from.phase].weeks[from.week];
          var kept := KeepOthers(wk.tasks, task.id);
          doc := PutWeek(doc, i.value, from.phase, from.week, wk.(tasks := kept));
        }
        var k := LookupWeek(doc, to.sectionId, to.phase, to.week);
        if k.Some? {
          var wk := doc.sections[k.value].phases[to.phase].weeks[to.week];
          doc := PutWeek(doc, k.value, to.phase, to.week, wk.(tasks := wk.tasks + [task]));
        }
        store.roadmapData := doc;
      }
      draggedItem := None;
    }

    /** `handleDragEnd`. */
    method HandleDragEnd()
      modifies this
      ensures draggedItem == None
      ensures activeSection == old(activeSection) && editMode == old(editMode)
    {
      draggedItem := None;
    }
  }
}
