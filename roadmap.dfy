/// The roadmap document shared by the admin page, the public page, the React
/// context and the HTTP server: an ordered list of sections, each holding a map
/// of phases, each holding a map of weeks, each holding an ordered list of tasks.
/// Besides the tree, this module gives the lookups every handler performs, the
/// one-week replacement every handler's write-back amounts to, the statistics
/// fold and the vote increment.
module Roadmap {

  datatype Option<+T> = None | Some(value: T)

  /** A task's `votes` field: absent, `null` (what JSON makes of NaN), NaN
      (what `undefined + 1` gives), or a number. */
  datatype Votes = Absent | Null | NaN | Count(n: int)

  datatype Task = Task(id: string, text: string, icon: string, completed: bool, votes: Votes)

  /** A week. A week stored without a task array is modelled with no tasks. */
  datatype Week = Week(title: string, order: int, badge: Option<string>, tasks: seq<Task>)

  /** A phase. The source keeps `title` and `order` in the same object as the
      week entries and filters those two keys out wherever it lists weeks; here
      they are separate fields and `weeks` holds only the week entries. */
  datatype Phase = Phase(title: string, order: int, weeks: map<string, Week>)

  datatype Section = Section(id: string, title: string, color: string, active: bool,
                             phases: map<string, Phase>)

  datatype Doc = Doc(sections: seq<Section>)

  /** The vote count every reader uses, `task.votes || 0`: absent, null and
      NaN read as 0. */
  function VoteCount(t: Task): int
  {
    match t.votes
    case Count(n) => n
    case _ => 0
  }

  /** Whether `votes + 1` is a number: null converts to 0, while absent and
      NaN give NaN. */
  predicate Numeric(v: Votes)
  {
    v.Count? || v.Null?
  }

  /** The names every plain object, such as a vote ledger, inherits from `Object.prototype`. Each
      one's value is a function or an object, so it is truthy. */
  const InheritedNames: set<string> := {
    "constructor", "hasOwnProperty", "isPrototypeOf", "propertyIsEnumerable",
    "toString", "toLocaleString", "valueOf", "__proto__",
    "__defineGetter__", "__defineSetter__", "__lookupGetter__", "__lookupSetter__"
  }

  /** The index of the first element `hit` holds for: what `find` and
      `findIndex` search for, None standing for `undefined` and -1. */
  function FindFirst<T>(xs: seq<T>, hit: T -> bool): (r: Option<nat>)
    ensures r.Some? ==> r.value < |xs| && hit(xs[r.value])
    ensures r.Some? ==> forall j :: 0 <= j < r.value ==> !hit(xs[j])
    ensures r.None? ==> forall j :: 0 <= j < |xs| ==> !hit(xs[j])
  {
    if |xs| == 0 then None
    else if hit(xs[0]) then Some(0)
    else match FindFirst(xs[1..], hit)
      case None => None
      case Some(k) => Some(k + 1)
  }

  /** The search sees only what `hit` says of each element. */
  lemma {:induction false} FindFirstSameHits<T, U>(a: seq<T>, ha: T -> bool, b: seq<U>, hb: U -> bool)
    requires |a| == |b| && forall k :: 0 <= k < |a| ==> ha(a[k]) == hb(b[k])
    ensures FindFirst(a, ha) == FindFirst(b, hb)
  {
    if |a| > 0 && !ha(a[0]) {
      FindFirstSameHits(a[1..], ha, b[1..], hb);
    }
  }

  /** `sections.find(s => s.id === id)`, as the index of the first match. */
  function FindSection(sections: seq<Section>, id: string): (r: Option<nat>)
    ensures r.Some? ==> r.value < |sections| && sections[r.value].id == id
    ensures r.Some? ==> forall j :: 0 <= j < r.value ==> sections[j].id != id
    ensures r.None? ==> forall j :: 0 <= j < |sections| ==> sections[j].id != id
  {
    FindFirst(sections, (s: Section) => s.id == id)
  }

  /** `tasks.findIndex(t => t.id === id)`, None standing for -1. */
  function FindTask(tasks: seq<Task>, id: string): (r: Option<nat>)
    ensures r.Some? ==> r.value < |tasks| && tasks[r.value].id == id
    ensures r.Some? ==> forall j :: 0 <= j < r.value ==> tasks[j].id != id
    ensures r.None? ==> forall j :: 0 <= j < |tasks| ==> tasks[j].id != id
  {
    FindFirst(tasks, (t: Task) => t.id == id)
  }

  /** `sections.find(s => s.active)`, as the index of the first active section. */
  function FindActive(sections: seq<Section>): (r: Option<nat>)
    ensures r.Some? ==> r.value < |sections| && sections[r.value].active
    ensures r.Some? ==> forall j :: 0 <= j < r.value ==> !sections[j].active
    ensures r.None? ==> forall j :: 0 <= j < |sections| ==> !sections[j].active
  {
    FindFirst(sections, (s: Section) => s.active)
  }

  /** The section lookup sees only the ids. */
  lemma FindSectionSameIds(a: seq<Section>, b: seq<Section>, id: string)
    requires |a| == |b| && forall k :: 0 <= k < |a| ==> a[k].id == b[k].id
    ensures FindSection(a, id) == FindSection(b, id)
  {
    FindFirstSameHits(a, (s: Section) => s.id == id, b, (s: Section) => s.id == id);
  }

  /** The task lookup sees only the ids. */
  lemma FindTaskSameIds(a: seq<Task>, b: seq<Task>, id: string)
    requires |a| == |b| && forall k :: 0 <= k < |a| ==> a[k].id == b[k].id
    ensures FindTask(a, id) == FindTask(b, id)
  {
    FindFirstSameHits(a, (t: Task) => t.id == id, b, (t: Task) => t.id == id);
  }

  predicate FirstActiveAt(sections: seq<Section>, k: int)
  {
    0 <= k < |sections| && sections[k].active && forall j :: 0 <= j < k ==> !sections[j].active
  }

  /** The tab both pages open on, `sections.find(s => s.active)?.id ||
      sections[0]?.id`: the first active section's id unless it is empty (and
      so falsy), else the first section's id; None (undefined) for a document
      without sections. */
  function InitialActive(sections: seq<Section>): (r: Option<string>)
    ensures r.None? <==> |sections| == 0
    ensures r.Some? ==> exists k :: 0 <= k < |sections| && sections[k].id == r.value
    ensures forall k :: FirstActiveAt(sections, k) && sections[k].id != "" ==> r == Some(sections[k].id)
    ensures forall k :: FirstActiveAt(sections, k) && sections[k].id == "" ==> r == Some(sections[0].id)
    ensures |sections| > 0 && (forall k :: 0 <= k < |sections| ==> !sections[k].active) ==>
              r == Some(sections[0].id)
  {
    match FindActive(sections)
    case Some(k) =>
      if sections[k].id != "" then Some(sections[k].id)
      else Some(sections[0].id)
    case None =>
      if |sections| > 0 then Some(sections[0].id) else None
  }

  /** The scan behind `sections.find`: the first section with the id. */
  method LookupSection(sections: seq<Section>, id: string) returns (r: Option<nat>)
    ensures r == FindSection(sections, id)
  {
    var k := 0;
    while k < |sections|
      invariant 0 <= k <= |sections|
      invariant forall j :: 0 <= j < k ==> sections[j].id != id
    {
      if sections[k].id == id {
        return Some(k);
      }
      k := k + 1;
    }
    return None;
  }

  /** The scan behind `tasks.findIndex`: the first task with the id. */
  method LookupTask(tasks: seq<Task>, id: string) returns (r: Option<nat>)
    ensures r == FindTask(tasks, id)
  {
    var k := 0;
    while k < |tasks|
      invariant 0 <= k <= |tasks|
      invariant forall j :: 0 <= j < k ==> tasks[j].id != id
    {
      if tasks[k].id == id {
        return Some(k);
      }
      k := k + 1;
    }
    return None;
  }

  predicate HasPhase(doc: Doc, i: nat, p: string)
  {
    i < |doc.sections| && p in doc.sections[i].phases
  }

  predicate HasWeek(doc: Doc, i: nat, p: string, w: string)
  {
    HasPhase(doc, i, p) && w in doc.sections[i].phases[p].weeks
  }

  function WeekAt(doc: Doc, i: nat, p: string, w: string): Week
    requires HasWeek(doc, i, p, w)
  {
    doc.sections[i].phases[p].weeks[w]
  }

  /** The lookup chain `sections.find(s => s.id === sid)`, then `phases[p]`,
      then `[w]`: the index of the section reached when all three succeed. */
  function Resolve(doc: Doc, sid: string, p: string, w: string): (r: Option<nat>)
    ensures r.Some? ==> r == FindSection(doc.sections, sid) && HasWeek(doc, r.value, p, w)
    ensures r.None? ==> match FindSection(doc.sections, sid)
                        case None => true
                        case Some(i) => !HasWeek(doc, i, p, w)
  {
    match FindSection(doc.sections, sid)
    case None => None
    case Some(i) => if HasWeek(doc, i, p, w) then Some(i) else None
  }

  /** Whether a vote for (sid, p, w, tid) reaches a task: the chain resolves and
      the week holds a task with that id. */
  predicate Targets(doc: Doc, sid: string, p: string, w: string, tid: string)
  {
    Resolve(doc, sid, p, w).Some? &&
    FindTask(WeekAt(doc, Resolve(doc, sid, p, w).value, p, w).tasks, tid).Some?
  }

  /** Replaces section i. */
  function PutSection(doc: Doc, i: nat, s: Section): (r: Doc)
    requires i < |doc.sections|
    ensures |r.sections| == |doc.sections| && r.sections[i] == s
    ensures forall k :: 0 <= k < |doc.sections| && k != i ==> r.sections[k] == doc.sections[k]
  {
    Doc(doc.sections[i := s])
  }

  /** The lookup chain as the handlers run it: the section scan, then the two
      key lookups. */
  method LookupWeek(doc: Doc, sid: string, p: string, w: string) returns (r: Option<nat>)
    ensures r == Resolve(doc, sid, p, w)
  {
    var i := LookupSection(doc.sections, sid);
    if i.Some? && p in doc.sections[i.value].phases && w in doc.sections[i.value].phases[p].weeks {
      return i;
    }
    return None;
  }

  /** Stores `wk` as week `w` of phase `p` of section i (adding the week if it
      is absent): the write-back that every in-place edit of a week amounts to.
      Nothing else in the document changes. */
  function PutWeek(doc: Doc, i: nat, p: string, w: string, wk: Week): (r: Doc)
    requires HasPhase(doc, i, p)
    ensures HasWeek(r, i, p, w) && WeekAt(r, i, p, w) == wk
    ensures |r.sections| == |doc.sections|
    ensures forall k :: 0 <= k < |doc.sections| && k != i ==> r.sections[k] == doc.sections[k]
    ensures r.sections[i].phases == doc.sections[i].phases[p := r.sections[i].phases[p]]
    ensures r.sections[i] == doc.sections[i].(phases := r.sections[i].phases)
    ensures r.sections[i].phases[p].weeks == doc.sections[i].phases[p].weeks[w := wk]
    ensures r.sections[i].phases[p] == doc.sections[i].phases[p].(weeks := r.sections[i].phases[p].weeks)
  {
    var s := doc.sections[i];
    var ph := s.phases[p];
    PutSection(doc, i, s.(phases := s.phases[p := ph.(weeks := ph.weeks[w := wk])]))
  }

  // ---------------------------------------------------------------------------
  // The statistics fold.
  // ---------------------------------------------------------------------------

  /** Where a task sits, with the titles the statistics report beside it. */
  datatype Place = Place(sectionId: string, sectionTitle: string, phase: string,
                         phaseTitle: string, week: string, weekTitle: string)

  /** One entry of the pending-task list the statistics build. */
  datatype Entry = Entry(place: Place, task: Task)

  /** What the statistics fold counts over part of the tree: tasks, completed
      tasks and votes. */
  datatype Tally = Tally(total: int, completed: int, votes: int)

  const NoTally := Tally(0, 0, 0)

  function Plus(a: Tally, b: Tally): Tally
  {
    Tally(a.total + b.total, a.completed + b.completed, a.votes + b.votes)
  }

  /** Removing a present key shrinks a map. */
  lemma RemoveKeyShrinks<K, V>(m: map<K, V>, k: K)
    requires k in m
    ensures |m - {k}| < |m|
  {
    assert (m - {k}).Keys < m.Keys;
  }

  /** Removing an absent key leaves a map as it was. */
  lemma RemoveAbsent<K, V>(m: map<K, V>, k: K)
    requires k !in m
    ensures m - {k} == m
  {
  }

  /** Storing under a key and then removing it is removing it. */
  lemma PutThenRemove<K, V>(m: map<K, V>, k: K, v: V)
    ensures m[k := v] - {k} == m - {k}
  {
  }

  lemma PlusAssoc(a: Tally, b: Tally, c: Tally)
    ensures Plus(Plus(a, b), c) == Plus(a, Plus(b, c))
  {
  }

  /** No part of the tree has more completed tasks than tasks. */
  predicate Consistent(t: Tally)
  {
    0 <= t.completed <= t.total
  }

  function TaskTally(t: Task): Tally
  {
    Tally(1, if t.completed then 1 else 0, VoteCount(t))
  }

  function TasksTally(tasks: seq<Task>): (r: Tally)
    ensures Consistent(r) && r.total == |tasks|
  {
    if tasks == [] then NoTally
    else Plus(TaskTally(tasks[0]), TasksTally(tasks[1..]))
  }

  /** The fold over the weeks of a phase, in no particular key order. */
  ghost function WeeksTally(weeks: map<string, Week>): (r: Tally)
    ensures Consistent(r)
    decreases |weeks|
  {
    if weeks == map[] then NoTally
    else
      var w :| w in weeks;
      Plus(TasksTally(weeks[w].tasks), WeeksTally(weeks - {w}))
  }

  /** The fold over the phases of a section, in no particular key order. */
  ghost function PhasesTally(phases: map<string, Phase>): (r: Tally)
    ensures Consistent(r)
    decreases |phases|
  {
    if phases == map[] then NoTally
    else
      var p :| p in phases;
      Plus(WeeksTally(phases[p].weeks), PhasesTally(phases - {p}))
  }

  ghost function SectionsTally(sections: seq<Section>): (r: Tally)
    ensures Consistent(r)
  {
    if sections == [] then NoTally
    else Plus(PhasesTally(sections[0].phases), SectionsTally(sections[1..]))
  }

  /** The statistics of the whole document: every task of every week of every
      phase of every section is counted once. */
  ghost function DocTally(doc: Doc): (r: Tally)
    ensures Consistent(r)
  {
    SectionsTally(doc.sections)
  }

  /** The fold over weeks may take any week first. */
  lemma {:induction false} WeeksTallyAnyKey(weeks: map<string, Week>, w: string)
    requires w in weeks
    ensures WeeksTally(weeks) == Plus(TasksTally(weeks[w].tasks), WeeksTally(weeks - {w}))
    decreases |weeks|
  {
    var w' :| w' in weeks && WeeksTally(weeks) == Plus(TasksTally(weeks[w'].tasks), WeeksTally(weeks - {w'}));
    if w' != w {
      var rest := (weeks - {w}) - {w'};
      var a, b, c := TasksTally(weeks[w].tasks), TasksTally(weeks[w'].tasks), WeeksTally(rest);
      assert WeeksTally(weeks - {w'}) == Plus(a, c) by {
        assert (weeks - {w'}) - {w} == rest;
        assert (weeks - {w'})[w] == weeks[w];
        RemoveKeyShrinks(weeks, w');
        WeeksTallyAnyKey(weeks - {w'}, w);
      }
      assert WeeksTally(weeks - {w}) == Plus(b, c) by {
        assert (weeks - {w})[w'] == weeks[w'];
        RemoveKeyShrinks(weeks, w);
        WeeksTallyAnyKey(weeks - {w}, w');
      }
      PlusSwap(b, a, c);
    }
  }

  /** The fold over phases may take any phase first. */
  lemma {:induction false} PhasesTallyAnyKey(phases: map<string, Phase>, p: string)
    requires p in phases
    ensures PhasesTally(phases) == Plus(WeeksTally(phases[p].weeks), PhasesTally(phases - {p}))
    decreases |phases|
  {
    var p' :| p' in phases && PhasesTally(phases) == Plus(WeeksTally(phases[p'].weeks), PhasesTally(phases - {p'}));
    if p' != p {
      var rest := (phases - {p}) - {p'};
      var a, b, c := WeeksTally(phases[p].weeks), WeeksTally(phases[p'].weeks), PhasesTally(rest);
      assert PhasesTally(phases - {p'}) == Plus(a, c) by {
        assert (phases - {p'}) - {p} == rest;
        assert (phases - {p'})[p] == phases[p];
        RemoveKeyShrinks(phases, p');
        PhasesTallyAnyKey(phases - {p'}, p);
      }
      assert PhasesTally(phases - {p}) == Plus(b, c) by {
        assert (phases - {p})[p'] == phases[p'];
        RemoveKeyShrinks(phases, p);
        PhasesTallyAnyKey(phases - {p}, p');
      }
      PlusSwap(b, a, c);
    }
  }

  lemma PlusSwap(a: Tally, b: Tally, c: Tally)
    ensures Plus(a, Plus(b, c)) == Plus(b, Plus(a, c))
  {
  }

  /** Removing a week takes its tasks out of the phase's tally. */
  lemma RemoveWeekTally(weeks: map<string, Week>, w: string)
    ensures WeeksTally(weeks) == Plus(if w in weeks then TasksTally(weeks[w].tasks) else NoTally, WeeksTally(weeks - {w}))
  {
    if w in weeks {
      WeeksTallyAnyKey(weeks, w);
    } else {
      RemoveAbsent(weeks, w);
    }
  }

  /** Removing a phase takes its weeks out of the section's tally. */
  lemma RemovePhaseTally(phases: map<string, Phase>, p: string)
    ensures PhasesTally(phases) == Plus(if p in phases then WeeksTally(phases[p].weeks) else NoTally, PhasesTally(phases - {p}))
  {
    if p in phases {
      PhasesTallyAnyKey(phases, p);
    } else {
      RemoveAbsent(phases, p);
    }
  }

  /** Storing a week changes the phase's tally by the difference of the two weeks. */
  lemma WeeksTallyPut(weeks: map<string, Week>, w: string, wk: Week)
    ensures Plus(WeeksTally(weeks[w := wk]), if w in weeks then TasksTally(weeks[w].tasks) else NoTally)
         == Plus(WeeksTally(weeks), TasksTally(wk.tasks))
  {
    var o := if w in weeks then TasksTally(weeks[w].tasks) else NoTally;
    var rest := WeeksTally(weeks - {w});
    RemoveWeekTally(weeks[w := wk], w);
    PutThenRemove(weeks, w, wk);
    RemoveWeekTally(weeks, w);
    Exchange(WeeksTally(weeks[w := wk]), WeeksTally(weeks), TasksTally(wk.tasks), o, rest);
  }

  /** Storing a phase changes the section's tally by the difference of the two phases. */
  lemma PhasesTallyPut(phases: map<string, Phase>, p: string, ph: Phase)
    ensures Plus(PhasesTally(phases[p := ph]), if p in phases then WeeksTally(phases[p].weeks) else NoTally)
         == Plus(PhasesTally(phases), WeeksTally(ph.weeks))
  {
    var o := if p in phases then WeeksTally(phases[p].weeks) else NoTally;
    var rest := PhasesTally(phases - {p});
    RemovePhaseTally(phases[p := ph], p);
    PutThenRemove(phases, p, ph);
    RemovePhaseTally(phases, p);
    Exchange(PhasesTally(phases[p := ph]), PhasesTally(phases), WeeksTally(ph.weeks), o, rest);
  }

  /** Two sums over the same rest differ by what was swapped in and out. */
  lemma Exchange(after: Tally, before: Tally, n: Tally, o: Tally, rest: Tally)
    requires after == Plus(n, rest) && before == Plus(o, rest)
    ensures Plus(after, o) == Plus(before, n)
  {
  }

  /** Replacing one section changes the document's tally by the difference of the two sections. */
  lemma {:induction false} SectionsTallyPut(sections: seq<Section>, i: nat, s: Section)
    requires i < |sections|
    ensures Plus(SectionsTally(sections[i := s]), PhasesTally(sections[i].phases))
         == Plus(SectionsTally(sections), PhasesTally(s.phases))
  {
    if i > 0 {
      SectionsTallyPut(sections[1..], i - 1, s);
      assert sections[i := s][1..] == sections[1..][i - 1 := s];
    } else {
      assert sections[i := s][1..] == sections[1..];
    }
  }

  /** Storing a week changes the document's tally by the difference of the two
      weeks (an absent week counting as nothing). */
  lemma PutWeekTally(doc: Doc, i: nat, p: string, w: string, wk: Week)
    requires HasPhase(doc, i, p)
    ensures
      var weeks := doc.sections[i].phases[p].weeks;
      Plus(DocTally(PutWeek(doc, i, p, w, wk)), if w in weeks then TasksTally(weeks[w].tasks) else NoTally)
      == Plus(DocTally(doc), TasksTally(wk.tasks))
  {
    var s := doc.sections[i];
    var ph := s.phases[p];
    var ph' := ph.(weeks := ph.weeks[w := wk]);
    var s' := s.(phases := s.phases[p := ph']);
    assert PutWeek(doc, i, p, w, wk) == Doc(doc.sections[i := s']);
    var docs' := doc.sections[i := s'];
    var o := if w in ph.weeks then TasksTally(ph.weeks[w].tasks) else NoTally;
    var n := TasksTally(wk.tasks);
    var a, a' := WeeksTally(ph.weeks), WeeksTally(ph'.weeks);
    var b, b' := PhasesTally(s.phases), PhasesTally(s'.phases);
    var c, c' := SectionsTally(doc.sections), SectionsTally(docs');
    assert Plus(a', o) == Plus(a, n) by {
      WeeksTallyPut(ph.weeks, w, wk);
    }
    assert Plus(b', a) == Plus(b, a') by {
      PhasesTallyPut(s.phases, p, ph');
    }
    assert Plus(c', b) == Plus(c, b') by {
      SectionsTallyPut(doc.sections, i, s');
    }
    assert Plus(c', o) == Plus(c, n);
  }

  /** Appending tasks adds their tallies. */
  lemma {:induction false} TasksTallyAppend(a: seq<Task>, b: seq<Task>)
    ensures TasksTally(a + b) == Plus(TasksTally(a), TasksTally(b))
  {
    if a != [] {
      assert (a + b)[1..] == a[1..] + b;
      TasksTallyAppend(a[1..], b);
      PlusAssoc(TaskTally(a[0]), TasksTally(a[1..]), TasksTally(b));
    } else {
      assert a + b == b;
    }
  }

  /** Appending one task adds its tally. */
  lemma TasksTallySnoc(tasks: seq<Task>, t: Task)
    ensures TasksTally(tasks + [t]) == Plus(TasksTally(tasks), TaskTally(t))
  {
    TasksTallyAppend(tasks, [t]);
    assert [t][1..] == [];
  }

  /** Replacing one task changes the tally by the difference of the two tasks. */
  lemma {:induction false} TasksTallyUpdate(tasks: seq<Task>, j: nat, t: Task)
    requires j < |tasks|
    ensures Plus(TasksTally(tasks[j := t]), TaskTally(tasks[j])) == Plus(TasksTally(tasks), TaskTally(t))
  {
    if j > 0 {
      assert tasks[j := t][1..] == tasks[1..][j - 1 := t];
      TasksTallyUpdate(tasks[1..], j - 1, t);
    } else {
      assert tasks[j := t][1..] == tasks[1..];
    }
  }

  // ---------------------------------------------------------------------------
  // The vote increment, performed alike by the client and by the server.
  // ---------------------------------------------------------------------------

  /** `task.votes += 1`: a number or null gains one; an absent or NaN count
      becomes NaN, which still reads as 0. */
  function Bump(t: Task): (r: Task)
    ensures r.(votes := t.votes) == t
    ensures Numeric(t.votes) ==> r.votes == Count(VoteCount(t) + 1)
    ensures !Numeric(t.votes) ==> r.votes == NaN && VoteCount(r) == 0
  {
    t.(votes := match t.votes
                case Count(n) => Count(n + 1)
                case Null => Count(1)
                case _ => NaN)
  }

  /** Finds section `sid`, phase `p`, week `w` and the first task `tid` in it
      and increments that task's votes; when any of them is missing the
      document is returned unchanged. */
  function IncrementVote(doc: Doc, sid: string, p: string, w: string, tid: string): (r: Doc)
    ensures !Targets(doc, sid, p, w, tid) ==> r == doc
    ensures Targets(doc, sid, p, w, tid) ==>
      var i := Resolve(doc, sid, p, w).value;
      var tasks := WeekAt(doc, i, p, w).tasks;
      var j := FindTask(tasks, tid).value;
      && HasWeek(r, i, p, w)
      && r == PutWeek(doc, i, p, w, WeekAt(r, i, p, w))
      && WeekAt(r, i, p, w) == WeekAt(doc, i, p, w).(tasks := WeekAt(r, i, p, w).tasks)
      && |WeekAt(r, i, p, w).tasks| == |tasks|
      && WeekAt(r, i, p, w).tasks[j] == Bump(tasks[j])
      && forall k :: 0 <= k < |tasks| && k != j ==> WeekAt(r, i, p, w).tasks[k] == tasks[k]
  {
    match Resolve(doc, sid, p, w)
    case None => doc
    case Some(i) =>
      var wk := WeekAt(doc, i, p, w);
      match FindTask(wk.tasks, tid)
      case None => doc
      case Some(j) => PutWeek(doc, i, p, w, wk.(tasks := wk.tasks[j := Bump(wk.tasks[j])]))
  }

  /** A vote that reaches a task whose count is a number or null raises the
      document's vote total by exactly one; the numbers of tasks and of
      completed tasks never change. */
  lemma IncrementVoteTally(doc: Doc, sid: string, p: string, w: string, tid: string)
    ensures var before := DocTally(doc);
            var after := DocTally(IncrementVote(doc, sid, p, w, tid));
            && after.total == before.total
            && after.completed == before.completed
            && after.votes == before.votes +
                 (if Targets(doc, sid, p, w, tid) && Numeric(TargetTask(doc, sid, p, w, tid).votes) then 1 else 0)
  {
    if Targets(doc, sid, p, w, tid) {
      var i := Resolve(doc, sid, p, w).value;
      var s := doc.sections[i];
      var ph := s.phases[p];
      var wk := WeekAt(doc, i, p, w);
      var j := FindTask(wk.tasks, tid).value;
      var wk' := wk.(tasks := wk.tasks[j := Bump(wk.tasks[j])]);
      PutWeekTally(doc, i, p, w, wk');
      TasksTallyUpdate(wk.tasks, j, Bump(wk.tasks[j]));
    }
  }

  /** The task a vote for (sid, p, w, tid) reaches. */
  function TargetTask(doc: Doc, sid: string, p: string, w: string, tid: string): Task
    requires Targets(doc, sid, p, w, tid)
  {
    var tasks := WeekAt(doc, Resolve(doc, sid, p, w).value, p, w).tasks;
    tasks[FindTask(tasks, tid).value]
  }

  // ---------------------------------------------------------------------------
  // The deep copy `JSON.parse(JSON.stringify(data))` that voteForTask,
  // saveEdit, addTask and handleDrop take before they edit, and that the
  // localStorage round trip performs. JSON has no NaN: it writes `null`.
  // ---------------------------------------------------------------------------

  /** The copy of one task: a NaN count becomes null and nothing else changes. */
  function JsonTask(t: Task): (r: Task)
    ensures r.(votes := t.votes) == t
    ensures !r.votes.NaN? && (!t.votes.NaN? ==> r == t)
    ensures VoteCount(r) == VoteCount(t)
  {
    if t.votes.NaN? then t.(votes := Null) else t
  }

  function JsonTasks(tasks: seq<Task>): seq<Task>
  {
    seq(|tasks|, k requires 0 <= k < |tasks| => JsonTask(tasks[k]))
  }

  function JsonWeek(wk: Week): Week
  {
    wk.(tasks := JsonTasks(wk.tasks))
  }

  function JsonWeeks(weeks: map<string, Week>): map<string, Week>
  {
    map w | w in weeks :: JsonWeek(weeks[w])
  }

  function JsonPhase(ph: Phase): Phase
  {
    ph.(weeks := JsonWeeks(ph.weeks))
  }

  function JsonPhases(phases: map<string, Phase>): map<string, Phase>
  {
    map p | p in phases :: JsonPhase(phases[p])
  }

  function JsonSection(s: Section): Section
  {
    s.(phases := JsonPhases(s.phases))
  }

  function JsonSections(sections: seq<Section>): seq<Section>
  {
    seq(|sections|, k requires 0 <= k < |sections| => JsonSection(sections[k]))
  }

  /** The copy of the document: every section, phase, week and task in place,
      with the same ids and keys; only NaN counts change, into null. */
  function JsonCopy(doc: Doc): (r: Doc)
    ensures |r.sections| == |doc.sections|
    ensures forall k :: 0 <= k < |doc.sections| ==>
              r.sections[k].id == doc.sections[k].id && r.sections[k].phases.Keys == doc.sections[k].phases.Keys
  {
    Doc(JsonSections(doc.sections))
  }

  /** The copy reaches the same week by the same lookups, and that week is the
      copy of the original one. */
  lemma JsonCopyResolve(doc: Doc, sid: string, p: string, w: string)
    ensures Resolve(JsonCopy(doc), sid, p, w) == Resolve(doc, sid, p, w)
    ensures Resolve(doc, sid, p, w).Some? ==>
              WeekAt(JsonCopy(doc), Resolve(doc, sid, p, w).value, p, w)
              == JsonWeek(WeekAt(doc, Resolve(doc, sid, p, w).value, p, w))
  {
    var c := JsonCopy(doc);
    FindSectionSameIds(c.sections, doc.sections, sid);
  }

  /** A vote reaches a task of the copy exactly when it reaches one of the
      original, and it reaches the copy of that task. */
  lemma JsonCopyTargets(doc: Doc, sid: string, p: string, w: string, tid: string)
    ensures Targets(JsonCopy(doc), sid, p, w, tid) <==> Targets(doc, sid, p, w, tid)
    ensures Targets(doc, sid, p, w, tid) ==>
              TargetTask(JsonCopy(doc), sid, p, w, tid) == JsonTask(TargetTask(doc, sid, p, w, tid))
  {
    JsonCopyResolve(doc, sid, p, w);
    if Resolve(doc, sid, p, w).Some? {
      var tasks := WeekAt(doc, Resolve(doc, sid, p, w).value, p, w).tasks;
      FindTaskSameIds(JsonTasks(tasks), tasks, tid);
    }
  }

  lemma {:induction false} JsonTasksTally(tasks: seq<Task>)
    ensures TasksTally(JsonTasks(tasks)) == TasksTally(tasks)
  {
    if tasks != [] {
      assert JsonTasks(tasks)[1..] == JsonTasks(tasks[1..]);
      JsonTasksTally(tasks[1..]);
    }
  }

  lemma JsonWeeksRemove(weeks: map<string, Week>, w: string)
    ensures JsonWeeks(weeks) - {w} == JsonWeeks(weeks - {w})
  {
  }

  lemma JsonPhasesRemove(phases: map<string, Phase>, p: string)
    ensures JsonPhases(phases) - {p} == JsonPhases(phases - {p})
  {
  }

  lemma {:induction false} JsonWeeksTally(weeks: map<string, Week>)
    ensures WeeksTally(JsonWeeks(weeks)) == WeeksTally(weeks)
    decreases |weeks|
  {
    if weeks != map[] {
      var w :| w in weeks;
      var c := JsonWeeks(weeks);
      var rest := weeks - {w};
      RemoveKeyShrinks(weeks, w);
      assert WeeksTally(c - {w}) == WeeksTally(rest) by {
        JsonWeeksRemove(weeks, w);
        JsonWeeksTally(rest);
      }
      assert TasksTally(c[w].tasks) == TasksTally(weeks[w].tasks) by {
        JsonTasksTally(weeks[w].tasks);
      }
      assert WeeksTally(weeks) == Plus(TasksTally(weeks[w].tasks), WeeksTally(rest)) by {
        WeeksTallyAnyKey(weeks, w);
      }
      assert WeeksTally(c) == Plus(TasksTally(c[w].tasks), WeeksTally(c - {w})) by {
        WeeksTallyAnyKey(c, w);
      }
    } else {
      assert JsonWeeks(weeks) == map[];
    }
  }

  lemma {:induction false} JsonPhasesTally(phases: map<string, Phase>)
    ensures PhasesTally(JsonPhases(phases)) == PhasesTally(phases)
    decreases |phases|
  {
    if phases != map[] {
      var p :| p in phases;
      var c := JsonPhases(phases);
      var rest := phases - {p};
      RemoveKeyShrinks(phases, p);
      assert PhasesTally(c - {p}) == PhasesTally(rest) by {
        JsonPhasesRemove(phases, p);
        JsonPhasesTally(rest);
      }
      assert WeeksTally(c[p].weeks) == WeeksTally(phases[p].weeks) by {
        JsonWeeksTally(phases[p].weeks);
      }
      assert PhasesTally(phases) == Plus(WeeksTally(phases[p].weeks), PhasesTally(rest)) by {
        PhasesTallyAnyKey(phases, p);
      }
      assert PhasesTally(c) == Plus(WeeksTally(c[p].weeks), PhasesTally(c - {p})) by {
        PhasesTallyAnyKey(c, p);
      }
    } else {
      assert JsonPhases(phases) == map[];
    }
  }

  lemma {:induction false} JsonSectionsTally(sections: seq<Section>)
    ensures SectionsTally(JsonSections(sections)) == SectionsTally(sections)
  {
    if sections != [] {
      assert JsonSections(sections)[1..] == JsonSections(sections[1..]);
      JsonSectionsTally(sections[1..]);
      JsonPhasesTally(sections[0].phases);
    }
  }

  /** The copy leaves the statistics as they were: NaN and null both read as 0. */
  lemma JsonCopyTally(doc: Doc)
    ensures DocTally(JsonCopy(doc)) == DocTally(doc)
  {
    JsonSectionsTally(doc.sections);
  }

  /** Copying a copy changes nothing more. */
  lemma JsonCopyTwice(doc: Doc)
    ensures JsonCopy(JsonCopy(doc)) == JsonCopy(doc)
  {
    var c := JsonCopy(doc);
    forall k | 0 <= k < |c.sections|
      ensures JsonSection(c.sections[k]) == c.sections[k]
    {
      var s := c.sections[k];
      forall p | p in s.phases
        ensures JsonPhase(s.phases[p]) == s.phases[p]
      {
        var ph := s.phases[p];
        forall w | w in ph.weeks
          ensures JsonWeek(ph.weeks[w]) == ph.weeks[w]
        {
          assert JsonTasks(ph.weeks[w].tasks) == ph.weeks[w].tasks;
        }
        assert JsonWeeks(ph.weeks) == ph.weeks;
      }
      assert JsonPhases(s.phases) == s.phases;
    }
    assert JsonSections(c.sections) == c.sections;
  }
}
