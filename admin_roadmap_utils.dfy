/// The helpers of the admin page: the statistics over the whole document
/// (task, completion and vote counts and the five most voted pending tasks),
/// the vote-ordered view of a week and the blank task.
module AdminRoadmapUtils {
  import opened Roadmap

  // ---------------------------------------------------------------------------
  // Sorting by votes, most votes first.
  // ---------------------------------------------------------------------------

  predicate SortedDesc<T>(s: seq<T>, key: T -> int)
  {
    forall i, j :: 0 <= i < j < |s| ==> key(s[i]) >= key(s[j])
  }

  /** Places x before the first element that does not outrank it. */
  function InsertDesc<T>(x: T, s: seq<T>, key: T -> int): (r: seq<T>)
    requires SortedDesc(s, key)
    ensures |r| == |s| + 1
    ensures r[0] == x || (|s| > 0 && r[0] == s[0])
    ensures SortedDesc(r, key)
    ensures multiset(r) == multiset(s) + multiset{x}
  {
    if s == [] || key(s[0]) <= key(x) then [x] + s
    else
      var rest := InsertDesc(x, s[1..], key);
      assert s == [s[0]] + s[1..];
      assert key(s[0]) >= key(rest[0]);
      [s[0]] + rest
  }

  /** An insertion sort on descending keys, standing for
      `Array.prototype.sort` with the comparator `(a, b) => key(b) - key(a)`. */
  function SortDesc<T>(s: seq<T>, key: T -> int): (r: seq<T>)
    ensures SortedDesc(r, key)
    ensures multiset(r) == multiset(s)
    ensures |r| == |s|
  {
    if s == [] then []
    else
      assert s == [s[0]] + s[1..];
      InsertDesc(s[0], SortDesc(s[1..], key), key)
  }

  /** `sortTasksByVotes`: a copy of the week's tasks with the most voted first.
      The result is a permutation of the input in non-increasing vote order. */
  function SortTasksByVotes(tasks: seq<Task>): (r: seq<Task>)
    ensures SortedDesc(r, VoteCount)
    ensures multiset(r) == multiset(tasks)
  {
    SortDesc(tasks, VoteCount)
  }

  // ---------------------------------------------------------------------------
  // The pending-task entries, gathered like the statistics gather them.
  // ---------------------------------------------------------------------------

  function EntryVotes(e: Entry): int
  {
    VoteCount(e.task)
  }

  function TasksPending(at: Place, tasks: seq<Task>): multiset<Entry>
  {
    if tasks == [] then multiset{}
    else (if tasks[0].completed then multiset{} else multiset{Entry(at, tasks[0])})
         + TasksPending(at, tasks[1..])
  }

  ghost function WeeksPending(sid: string, st: string, p: string, pt: string,
                              weeks: map<string, Week>): multiset<Entry>
    decreases |weeks|
  {
    if weeks == map[] then multiset{}
    else
      var w :| w in weeks;
      TasksPending(Place(sid, st, p, pt, w, weeks[w].title), weeks[w].tasks)
      + WeeksPending(sid, st, p, pt, weeks - {w})
  }

  ghost function PhasesPending(sid: string, st: string, phases: map<string, Phase>): multiset<Entry>
    decreases |phases|
  {
    if phases == map[] then multiset{}
    else
      var p :| p in phases;
      WeeksPending(sid, st, p, phases[p].title, phases[p].weeks) + PhasesPending(sid, st, phases - {p})
  }

  ghost function SectionsPending(sections: seq<Section>): multiset<Entry>
  {
    if sections == [] then multiset{}
    else PhasesPending(sections[0].id, sections[0].title, sections[0].phases)
         + SectionsPending(sections[1..])
  }

  /** Every task of the document that is not completed, with where it sits. */
  ghost function DocPending(doc: Doc): multiset<Entry>
  {
    SectionsPending(doc.sections)
  }

  lemma {:induction false} WeeksPendingAnyKey(sid: string, st: string, p: string, pt: string,
                                              weeks: map<string, Week>, w: string)
    requires w in weeks
    ensures WeeksPending(sid, st, p, pt, weeks)
         == TasksPending(Place(sid, st, p, pt, w, weeks[w].title), weeks[w].tasks)
            + WeeksPending(sid, st, p, pt, weeks - {w})
    decreases |weeks|
  {
    var w' :| w' in weeks && WeeksPending(sid, st, p, pt, weeks)
      == TasksPending(Place(sid, st, p, pt, w', weeks[w'].title), weeks[w'].tasks)
         + WeeksPending(sid, st, p, pt, weeks - {w'});
    if w' != w {
      var rest := (weeks - {w}) - {w'};
      assert (weeks - {w'}) - {w} == rest;
      assert (weeks - {w'})[w] == weeks[w] && (weeks - {w})[w'] == weeks[w'];
      WeeksPendingAnyKey(sid, st, p, pt, weeks - {w'}, w);
      WeeksPendingAnyKey(sid, st, p, pt, weeks - {w}, w');
    }
  }

  lemma {:induction false} PhasesPendingAnyKey(sid: string, st: string, phases: map<string, Phase>, p: string)
    requires p in phases
    ensures PhasesPending(sid, st, phases)
         == WeeksPending(sid, st, p, phases[p].title, phases[p].weeks) + PhasesPending(sid, st, phases - {p})
    decreases |phases|
  {
    var p' :| p' in phases && PhasesPending(sid, st, phases)
      == WeeksPending(sid, st, p', phases[p'].title, phases[p'].weeks) + PhasesPending(sid, st, phases - {p'});
    if p' != p {
      var rest := (phases - {p}) - {p'};
      assert (phases - {p'}) - {p} == rest;
      assert (phases - {p'})[p] == phases[p] && (phases - {p})[p'] == phases[p'];
      PhasesPendingAnyKey(sid, st, phases - {p'}, p);
      PhasesPendingAnyKey(sid, st, phases - {p}, p');
    }
  }

  /** Section s holds the entry's task, pending, in the week the entry names,
      under the titles the entry carries. */
  ghost predicate LocatedIn(s: Section, e: Entry)
  {
    var at := e.place;
    && s.id == at.sectionId && s.title == at.sectionTitle
    && at.phase in s.phases && s.phases[at.phase].title == at.phaseTitle
    && at.week in s.phases[at.phase].weeks
    && s.phases[at.phase].weeks[at.week].title == at.weekTitle
    && e.task in s.phases[at.phase].weeks[at.week].tasks
    && !e.task.completed
  }

  lemma {:induction false} TasksPendingLocated(at: Place, tasks: seq<Task>, e: Entry)
    requires e in TasksPending(at, tasks)
    ensures e.place == at && e.task in tasks && !e.task.completed
  {
    if !(!tasks[0].completed && e == Entry(at, tasks[0])) {
      TasksPendingLocated(at, tasks[1..], e);
    }
  }

  lemma {:induction false} WeeksPendingLocated(sid: string, st: string, p: string, pt: string,
                                               weeks: map<string, Week>, e: Entry) returns (w: string)
    requires e in WeeksPending(sid, st, p, pt, weeks)
    ensures w in weeks && e.place == Place(sid, st, p, pt, w, weeks[w].title)
    ensures e.task in weeks[w].tasks && !e.task.completed
    decreases |weeks|
  {
    var w' :| w' in weeks && WeeksPending(sid, st, p, pt, weeks)
      == TasksPending(Place(sid, st, p, pt, w', weeks[w'].title), weeks[w'].tasks)
         + WeeksPending(sid, st, p, pt, weeks - {w'});
    if e in TasksPending(Place(sid, st, p, pt, w', weeks[w'].title), weeks[w'].tasks) {
      TasksPendingLocated(Place(sid, st, p, pt, w', weeks[w'].title), weeks[w'].tasks, e);
      w := w';
    } else {
      w := WeeksPendingLocated(sid, st, p, pt, weeks - {w'}, e);
    }
  }

  lemma {:induction false} PhasesPendingLocated(s: Section, phases: map<string, Phase>, e: Entry)
    requires e in PhasesPending(s.id, s.title, phases)
    requires forall p :: p in phases ==> p in s.phases && s.phases[p] == phases[p]
    ensures LocatedIn(s, e)
    decreases |phases|
  {
    var p :| p in phases && PhasesPending(s.id, s.title, phases)
      == WeeksPending(s.id, s.title, p, phases[p].title, phases[p].weeks) + PhasesPending(s.id, s.title, phases - {p});
    if e in WeeksPending(s.id, s.title, p, phases[p].title, phases[p].weeks) {
      var w := WeeksPendingLocated(s.id, s.title, p, phases[p].title, phases[p].weeks, e);
    } else {
      PhasesPendingLocated(s, phases - {p}, e);
    }
  }

  /** Every gathered entry names a section, phase and week of the document that
      hold its task, under their current titles, and the task is pending. */
  lemma {:induction false} PendingLocated(sections: seq<Section>, e: Entry) returns (k: nat)
    requires e in SectionsPending(sections)
    ensures k < |sections| && LocatedIn(sections[k], e)
  {
    var s := sections[0];
    if e in PhasesPending(s.id, s.title, s.phases) {
      PhasesPendingLocated(s, s.phases, e);
      k := 0;
    } else {
      var k' := PendingLocated(sections[1..], e);
      k := k' + 1;
    }
  }

  // ---------------------------------------------------------------------------
  // The statistics, gathered by nested loops as the source does.
  // ---------------------------------------------------------------------------

  datatype Stats = Stats(totalTasks: int, completedTasks: int, completionPercentage: int,
                         totalVotes: int, topVotedTasks: seq<Entry>)

  /** A positive factor keeps a strict order between products. */
  lemma FactorOrder(d: int, x: int, y: int)
    requires d > 0 && d * x < d * y
    ensures x < y
  {
  }

  /** The rounded share of `completed` in `total`, in percent. */
  lemma RoundedShare(completed: int, total: int)
    requires 0 <= completed <= total && total > 0
    ensures var r := (200 * completed + total) / (2 * total);
            0 <= r <= 100 && 2 * total * r <= 200 * completed + total < 2 * total * (r + 1)
  {
    var d, a := 2 * total, 200 * completed + total;
    var r := a / d;
    assert a == d * r + a % d && 0 <= a % d < d;
    assert d * (r + 1) == d * r + d;
    assert a < d * 101;
    FactorOrder(d, r, 101);
    FactorOrder(d, -1, r + 1);
  }

  /** `Math.round(completed / total * 100)` in exact arithmetic (halves
      rounded up), and 0 for an empty document. */
  function Percentage(completed: int, total: int): (r: int)
    requires 0 <= completed <= total
    ensures total == 0 ==> r == 0
    ensures total > 0 ==> 0 <= r <= 100
    ensures total > 0 ==> 2 * total * r <= 200 * completed + total < 2 * total * (r + 1)
  {
    if total > 0 then
      RoundedShare(completed, total);
      (200 * completed + total) / (2 * total)
    else 0
  }

  /** `top` is a k-best selection from `pool`: at most k entries, as many as
      the pool allows, taken from the pool, and no entry left behind has more
      votes than any entry chosen. */
  ghost predicate IsTopVoted(top: seq<Entry>, pool: multiset<Entry>, k: nat)
  {
    && |top| == (if |pool| < k then |pool| else k)
    && SortedDesc(top, EntryVotes)
    && multiset(top) <= pool
    && forall e, m :: e in pool - multiset(top) && 0 <= m < |top| ==> EntryVotes(e) <= EntryVotes(top[m])
  }

  /** In a sorted sequence the first n outrank everything after them. */
  lemma SortedSplit<T>(s: seq<T>, key: T -> int, n: nat)
    requires SortedDesc(s, key) && n <= |s|
    ensures SortedDesc(s[..n], key)
    ensures forall e, m :: e in s[n..] && 0 <= m < n ==> key(e) <= key(s[m])
  {
    forall e, m | e in s[n..] && 0 <= m < n
      ensures key(e) <= key(s[m])
    {
      var j :| 0 <= j < |s[n..]| && s[n..][j] == e;
      assert s[n + j] == e;
    }
  }

  /** What the first n of a sorted permutation leave behind never outvotes them. */
  lemma LeftBehindOutvoted(sorted: seq<Entry>, pool: multiset<Entry>, n: nat)
    requires SortedDesc(sorted, EntryVotes) && multiset(sorted) == pool && n <= |sorted|
    ensures multiset(sorted[..n]) <= pool
    ensures forall e, m :: e in pool - multiset(sorted[..n]) && 0 <= m < n ==> EntryVotes(e) <= EntryVotes(sorted[..n][m])
  {
    var top, rest := sorted[..n], sorted[n..];
    SortedSplit(sorted, EntryVotes, n);
    assert sorted == top + rest;
    assert pool - multiset(top) == multiset(rest);
  }

  /** The first k of a sorted permutation of the pool are a k-best selection. */
  lemma SortedPrefixIsTop(sorted: seq<Entry>, pool: multiset<Entry>, k: nat)
    requires SortedDesc(sorted, EntryVotes) && multiset(sorted) == pool
    ensures IsTopVoted(sorted[..if |sorted| < k then |sorted| else k], pool, k)
  {
    var n := if |sorted| < k then |sorted| else k;
    SortedSplit(sorted, EntryVotes, n);
    LeftBehindOutvoted(sorted, pool, n);
  }

  lemma {:induction false} TasksPendingAppend(at: Place, a: seq<Task>, b: seq<Task>)
    ensures TasksPending(at, a + b) == TasksPending(at, a) + TasksPending(at, b)
  {
    if a != [] {
      assert (a + b)[1..] == a[1..] + b;
      TasksPendingAppend(at, a[1..], b);
    } else {
      assert a + b == b;
    }
  }

  /** One step of the week loop: the folds over `tasks[..j + 1]` add `tasks[j]`
      to those over `tasks[..j]`. */
  lemma WeekStep(at: Place, tasks: seq<Task>, j: nat)
    requires j < |tasks|
    ensures TasksTally(tasks[..j + 1]) == Plus(TasksTally(tasks[..j]), TaskTally(tasks[j]))
    ensures TasksPending(at, tasks[..j + 1])
         == TasksPending(at, tasks[..j]) + (if tasks[j].completed then multiset{} else multiset{Entry(at, tasks[j])})
  {
    assert tasks[..j + 1] == tasks[..j] + [tasks[j]];
    TasksTallyAppend(tasks[..j], [tasks[j]]);
    TasksPendingAppend(at, tasks[..j], [tasks[j]]);
    assert [tasks[j]][1..] == [];
  }

  /** The statistics of one week: its task, completion and vote counts and its
      pending tasks. */
  method TallyWeek(at: Place, tasks: seq<Task>) returns (t: Tally, pending: seq<Entry>)
    ensures t == TasksTally(tasks)
    ensures multiset(pending) == TasksPending(at, tasks)
  {
    var totalTasks, completedTasks, totalVotes := 0, 0, 0;
    pending := [];
    var j := 0;
    while j < |tasks|
      invariant 0 <= j <= |tasks|
      invariant Tally(totalTasks, completedTasks, totalVotes) == TasksTally(tasks[..j])
      invariant multiset(pending) == TasksPending(at, tasks[..j])
    {
      var task := tasks[j];
      WeekStep(at, tasks, j);
      totalTasks := totalTasks + 1;
      if task.completed {
        completedTasks := completedTasks + 1;
      }
      totalVotes := totalVotes + VoteCount(task);
      if !task.completed {
        pending := pending + [Entry(at, task)];
      }
      j := j + 1;
    }
    assert tasks[..j] == tasks;
    t := Tally(totalTasks, completedTasks, totalVotes);
  }

  /** Part way through the weeks of a phase: the statistics gathered so far
      and those of the weeks still to visit make up the whole phase's. */
  ghost predicate PhaseProgress(s: Section, p: string, ph: Phase, rest: map<string, Week>,
                                t: Tally, bag: multiset<Entry>)
  {
    && Plus(t, WeeksTally(rest)) == WeeksTally(ph.weeks)
    && bag + WeeksPending(s.id, s.title, p, ph.title, rest) == WeeksPending(s.id, s.title, p, ph.title, ph.weeks)
  }

  /** Visiting any one remaining week keeps the phase's progress. */
  lemma PhaseProgressStep(s: Section, p: string, ph: Phase, rest: map<string, Week>,
                          t: Tally, bag: multiset<Entry>, w: string)
    requires w in rest && PhaseProgress(s, p, ph, rest, t, bag)
    ensures PhaseProgress(s, p, ph, rest - {w}, Plus(t, TasksTally(rest[w].tasks)),
                          bag + TasksPending(Place(s.id, s.title, p, ph.title, w, rest[w].title), rest[w].tasks))
    ensures |rest - {w}| < |rest|
  {
    WeeksTallyAnyKey(rest, w);
    PlusAssoc(t, TasksTally(rest[w].tasks), WeeksTally(rest - {w}));
    WeeksPendingAnyKey(s.id, s.title, p, ph.title, rest, w);
    RemoveKeyShrinks(rest, w);
  }

  /** With no week left, what was gathered is the phase's statistics. */
  lemma PhaseProgressDone(s: Section, p: string, ph: Phase, rest: map<string, Week>,
                          t: Tally, bag: multiset<Entry>)
    requires rest == map[] && PhaseProgress(s, p, ph, rest, t, bag)
    ensures t == WeeksTally(ph.weeks) && bag == WeeksPending(s.id, s.title, p, ph.title, ph.weeks)
  {
  }

  /** The statistics of one phase: its weeks in whatever order the keys come. */
  method TallyPhase(s: Section, p: string, ph: Phase) returns (t: Tally, pending: seq<Entry>)
    ensures t == WeeksTally(ph.weeks)
    ensures multiset(pending) == WeeksPending(s.id, s.title, p, ph.title, ph.weeks)
  {
    t, pending := NoTally, [];
    var rest := ph.weeks;
    while |rest| > 0
      invariant PhaseProgress(s, p, ph, rest, t, multiset(pending))
      decreases |rest|
    {
      var w :| w in rest;
      var wt, wp := TallyWeek(Place(s.id, s.title, p, ph.title, w, rest[w].title), rest[w].tasks);
      PhaseProgressStep(s, p, ph, rest, t, multiset(pending), w);
      t := Plus(t, wt);
      pending := pending + wp;
      rest := rest - {w};
    }
    assert rest == map[];
    PhaseProgressDone(s, p, ph, rest, t, multiset(pending));
  }

  /** Part way through the phases of a section, as `PhaseProgress`. */
  ghost predicate SectionProgress(s: Section, rest: map<string, Phase>, t: Tally, bag: multiset<Entry>)
  {
    && Plus(t, PhasesTally(rest)) == PhasesTally(s.phases)
    && bag + PhasesPending(s.id, s.title, rest) == PhasesPending(s.id, s.title, s.phases)
  }

  lemma SectionProgressStep(s: Section, rest: map<string, Phase>, t: Tally, bag: multiset<Entry>, p: string)
    requires p in rest && SectionProgress(s, rest, t, bag)
    ensures SectionProgress(s, rest - {p}, Plus(t, WeeksTally(rest[p].weeks)),
                            bag + WeeksPending(s.id, s.title, p, rest[p].title, rest[p].weeks))
    ensures |rest - {p}| < |rest|
  {
    PhasesTallyAnyKey(rest, p);
    PlusAssoc(t, WeeksTally(rest[p].weeks), PhasesTally(rest - {p}));
    PhasesPendingAnyKey(s.id, s.title, rest, p);
    RemoveKeyShrinks(rest, p);
  }

  lemma SectionProgressDone(s: Section, rest: map<string, Phase>, t: Tally, bag: multiset<Entry>)
    requires rest == map[] && SectionProgress(s, rest, t, bag)
    ensures t == PhasesTally(s.phases) && bag == PhasesPending(s.id, s.title, s.phases)
  {
  }

  /** The statistics of one section: its phases in whatever order the keys come. */
  method TallySection(s: Section) returns (t: Tally, pending: seq<Entry>)
    ensures t == PhasesTally(s.phases)
    ensures multiset(pending) == PhasesPending(s.id, s.title, s.phases)
  {
    t, pending := NoTally, [];
    var rest := s.phases;
    while |rest| > 0
      invariant SectionProgress(s, rest, t, multiset(pending))
      decreases |rest|
    {
      var p :| p in rest;
      var pt, pp := TallyPhase(s, p, rest[p]);
      SectionProgressStep(s, rest, t, multiset(pending), p);
      t := Plus(t, pt);
      pending := pending + pp;
      rest := rest - {p};
    }
    assert rest == map[];
    SectionProgressDone(s, rest, t, multiset(pending));
  }

  /** Part way through the sections: what was gathered from the first `i` and
      what the others hold make up the whole document's statistics. */
  ghost predicate DocProgress(doc: Doc, i: nat, t: Tally, bag: multiset<Entry>)
  {
    && i <= |doc.sections|
    && Plus(t, SectionsTally(doc.sections[i..])) == DocTally(doc)
    && bag + SectionsPending(doc.sections[i..]) == DocPending(doc)
  }

  lemma DocProgressStep(doc: Doc, i: nat, t: Tally, bag: multiset<Entry>)
    requires i < |doc.sections| && DocProgress(doc, i, t, bag)
    ensures var s := doc.sections[i];
            DocProgress(doc, i + 1, Plus(t, PhasesTally(s.phases)), bag + PhasesPending(s.id, s.title, s.phases))
  {
    var s := doc.sections[i];
    assert doc.sections[i..][1..] == doc.sections[i + 1..];
    PlusAssoc(t, PhasesTally(s.phases), SectionsTally(doc.sections[i + 1..]));
  }

  lemma DocProgressDone(doc: Doc, t: Tally, bag: multiset<Entry>)
    requires DocProgress(doc, |doc.sections|, t, bag)
    ensures t == DocTally(doc) && bag == DocPending(doc)
  {
    assert doc.sections[|doc.sections|..] == [];
  }

  /** Every entry drawn from the document's pending tasks has a place in it. */
  lemma DrawnEntriesLocated(doc: Doc, top: seq<Entry>)
    requires multiset(top) <= DocPending(doc)
    ensures forall e :: e in top ==> exists k :: 0 <= k < |doc.sections| && LocatedIn(doc.sections[k], e)
  {
    forall e | e in top
      ensures exists k :: 0 <= k < |doc.sections| && LocatedIn(doc.sections[k], e)
    {
      assert e in multiset(top);
      var k := PendingLocated(doc.sections, e);
    }
  }

  /** `calculateStats`: counts every task of every week of every phase of every
      section, the completed ones and all votes; the percentage is 0 for an
      empty document; the top list is the five (or fewer) most voted pending
      tasks, most votes first, each with the place it came from. */
  method CalculateStats(doc: Doc) returns (stats: Stats)
    ensures stats.totalTasks == DocTally(doc).total
    ensures stats.completedTasks == DocTally(doc).completed
    ensures stats.totalVotes == DocTally(doc).votes
    ensures 0 <= stats.completedTasks <= stats.totalTasks
    ensures stats.completionPercentage == Percentage(stats.completedTasks, stats.totalTasks)
    ensures IsTopVoted(stats.topVotedTasks, DocPending(doc), 5)
    ensures forall e :: e in stats.topVotedTasks ==>
              exists k :: 0 <= k < |doc.sections| && LocatedIn(doc.sections[k], e)
  {
    var t, pending := NoTally, [];
    var i := 0;
    while i < |doc.sections|
      invariant DocProgress(doc, i, t, multiset(pending))
    {
      var st, sp := TallySection(doc.sections[i]);
      DocProgressStep(doc, i, t, multiset(pending));
      t, pending := Plus(t, st), pending + sp;
      i := i + 1;
    }
    DocProgressDone(doc, t, multiset(pending));
    var sorted := SortDesc(pending, EntryVotes);
    var top := sorted[..if |sorted| < 5 then |sorted| else 5];
    SortedPrefixIsTop(sorted, multiset(pending), 5);
    DrawnEntriesLocated(doc, top);
    stats := Stats(t.total, t.completed, Percentage(t.completed, t.total), t.votes, top);
  }

  /** `createEmptyTask`: a blank pending task without votes, tagged with the
      place it is meant for; `id` stands for the generated identifier. */
  datatype PlacedTask = PlacedTask(task: Task, sectionId: string, phase: string, week: string)

  function CreateEmptyTask(sectionId: string, phase: string, week: string, id: string): (r: PlacedTask)
    ensures r.task.id == id && !r.task.completed && r.task.votes == Count(0)
    ensures r.sectionId == sectionId && r.phase == phase && r.week == week
  {
    PlacedTask(Task(id, "Nouvelle tâche", "Task", false, Count(0)), sectionId, phase, week)
  }
}
