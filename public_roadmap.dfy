/// The public page: tabs over the sections, the phases and weeks in their
/// display order, one vote per task and browser, and the overview figures.
module PublicRoadmap {
  import opened Roadmap
  import opened RoadmapContext
  import opened AdminRoadmapUtils
  import TreeEdits

  // ---------------------------------------------------------------------------
  // Display order of phases and weeks.
  // ---------------------------------------------------------------------------

  /** `keys.sort((a, b) => m[a].order - m[b].order)`: the keys as given
      (`Object.keys`, with `title` and `order` already left out for weeks),
      put in ascending `order`. Ascending in `order` is descending in its
      negation, which is how the shared insertion sort is used here. */
  function ByOrder<V>(m: map<string, V>, order: V -> int, keys: seq<string>): (r: seq<string>)
    requires forall k :: k in keys ==> k in m
    ensures multiset(r) == multiset(keys)
    ensures forall k :: k in r ==> k in m
    ensures forall i, j :: 0 <= i < j < |r| ==> order(m[r[i]]) <= order(m[r[j]])
  {
    var key := (k: string) => if k in m then -order(m[k]) else 0;
    var r := SortDesc(keys, key);
    assert forall k :: k in r ==> k in m by {
      forall k | k in r
        ensures k in m
      {
        assert k in multiset(r);
      }
    }
    r
  }

  /** The phases of a section in the order the page lists them. */
  function PhaseOrder(s: Section, keys: seq<string>): (r: seq<string>)
    requires forall k :: k in keys ==> k in s.phases
    ensures multiset(r) == multiset(keys)
    ensures forall k :: k in r ==> k in s.phases
    ensures forall i, j :: 0 <= i < j < |r| ==> s.phases[r[i]].order <= s.phases[r[j]].order
  {
    ByOrder(s.phases, (ph: Phase) => ph.order, keys)
  }

  /** The weeks of a phase in the order the page lists them. */
  function WeekOrder(ph: Phase, keys: seq<string>): (r: seq<string>)
    requires forall k :: k in keys ==> k in ph.weeks
    ensures multiset(r) == multiset(keys)
    ensures forall k :: k in r ==> k in ph.weeks
    ensures forall i, j :: 0 <= i < j < |r| ==> ph.weeks[r[i]].order <= ph.weeks[r[j]].order
  {
    ByOrder(ph.weeks, (wk: Week) => wk.order, keys)
  }

  /** `keys` lists every key of `m` once, as `Object.keys` does. */
  predicate Enumerates<V>(keys: seq<string>, m: map<string, V>)
  {
    (forall k :: k in keys ==> k in m) &&
    (forall k :: k in m ==> multiset(keys)[k] == 1)
  }

  /** Sorting the keys loses and repeats none: every phase is listed once. */
  lemma PhaseOrderListsEachOnce(s: Section, keys: seq<string>)
    requires Enumerates(keys, s.phases)
    ensures Enumerates(PhaseOrder(s, keys), s.phases)
  {
  }

  // ---------------------------------------------------------------------------
  // The overview figures.
  // ---------------------------------------------------------------------------

  datatype Overview = Overview(totalTasks: int, completedTasks: int, completionPercentage: int,
                               totalVotes: int)

  /** Part way through a phase: the counters so far and the weeks left make
      up the phase's figures. */
  ghost predicate WeeksLeft(whole: map<string, Week>, rest: map<string, Week>, t: Tally)
  {
    Plus(t, WeeksTally(rest)) == WeeksTally(whole)
  }

  lemma WeeksLeftDone(whole: map<string, Week>, rest: map<string, Week>, t: Tally)
    requires rest == map[] && WeeksLeft(whole, rest, t)
    ensures t == WeeksTally(whole)
  {
  }

  ghost predicate PhasesLeft(whole: map<string, Phase>, rest: map<string, Phase>, t: Tally)
  {
    Plus(t, PhasesTally(rest)) == PhasesTally(whole)
  }

  lemma PhasesLeftDone(whole: map<string, Phase>, rest: map<string, Phase>, t: Tally)
    requires rest == map[] && PhasesLeft(whole, rest, t)
    ensures t == PhasesTally(whole)
  {
  }

  lemma WeeksTallyStep(whole: map<string, Week>, rest: map<string, Week>, t: Tally, w: string)
    requires w in rest && WeeksLeft(whole, rest, t)
    ensures WeeksLeft(whole, rest - {w}, Plus(t, TasksTally(rest[w].tasks)))
    ensures |rest - {w}| < |rest|
  {
    WeeksTallyAnyKey(rest, w);
    PlusAssoc(t, TasksTally(rest[w].tasks), WeeksTally(rest - {w}));
    RemoveKeyShrinks(rest, w);
  }

  lemma PhasesTallyStep(whole: map<string, Phase>, rest: map<string, Phase>, t: Tally, p: string)
    requires p in rest && PhasesLeft(whole, rest, t)
    ensures PhasesLeft(whole, rest - {p}, Plus(t, WeeksTally(rest[p].weeks)))
    ensures |rest - {p}| < |rest|
  {
    PhasesTallyAnyKey(rest, p);
    PlusAssoc(t, WeeksTally(rest[p].weeks), PhasesTally(rest - {p}));
    RemoveKeyShrinks(rest, p);
  }

  lemma TasksTallyStep(tasks: seq<Task>, j: nat)
    requires j < |tasks|
    ensures TasksTally(tasks[..j + 1]) == Plus(TasksTally(tasks[..j]), TaskTally(tasks[j]))
  {
    assert tasks[..j + 1] == tasks[..j] + [tasks[j]];
    TasksTallySnoc(tasks[..j], tasks[j]);
  }

  /** The counters over one week's tasks. */
  method CountWeek(tasks: seq<Task>) returns (t: Tally)
    ensures t == TasksTally(tasks)
  {
    var totalTasks, completedTasks, totalVotes := 0, 0, 0;
    var j := 0;
    while j < |tasks|
      invariant 0 <= j <= |tasks|
      invariant Tally(totalTasks, completedTasks, totalVotes) == TasksTally(tasks[..j])
    {
      TasksTallyStep(tasks, j);
      totalTasks := totalTasks + 1;
      if tasks[j].completed {
        completedTasks := completedTasks + 1;
      }
      totalVotes := totalVotes + VoteCount(tasks[j]);
      j := j + 1;
    }
    assert tasks[..j] == tasks;
    t := Tally(totalTasks, completedTasks, totalVotes);
  }

  /** The counters over the weeks of one phase, in any key order. */
  method CountPhase(weeks: map<string, Week>) returns (t: Tally)
    ensures t == WeeksTally(weeks)
  {
    t := NoTally;
    var rest := weeks;
    while |rest| > 0
      invariant WeeksLeft(weeks, rest, t)
      decreases |rest|
    {
      var w :| w in rest;
      var wt := CountWeek(rest[w].tasks);
      WeeksTallyStep(weeks, rest, t, w);
      t := Plus(t, wt);
      rest := rest - {w};
    }
    assert rest == map[];
    WeeksLeftDone(weeks, rest, t);
  }

  /** The counters over the phases of one section, in any key order. */
  method CountSection(phases: map<string, Phase>) returns (t: Tally)
    ensures t == PhasesTally(phases)
  {
    t := NoTally;
    var rest := phases;
    while |rest| > 0
      invariant PhasesLeft(phases, rest, t)
      decreases |rest|
    {
      var p :| p in rest;
      var pt := CountPhase(rest[p].weeks);
      PhasesTallyStep(phases, rest, t, p);
      t := Plus(t, pt);
      rest := rest - {p};
    }
    assert rest == map[];
    PhasesLeftDone(phases, rest, t);
  }

  /** The page's own `calculateStats`: every task counted once, the completed
      ones, all votes (a missing count as 0), and the rounded percentage, 0 for
      an empty document. */
  method CalculateOverview(doc: Doc) returns (o: Overview)
    ensures o.totalTasks == DocTally(doc).total
    ensures o.completedTasks == DocTally(doc).completed
    ensures o.totalVotes == DocTally(doc).votes
    ensures 0 <= o.completedTasks <= o.totalTasks
    ensures 0 <= o.completionPercentage <= 100
    ensures o.totalTasks == 0 ==> o.completionPercentage == 0
    ensures o.completionPercentage == Percentage(o.completedTasks, o.totalTasks)
  {
    var t := NoTally;
    var i := 0;
    while i < |doc.sections|
      invariant 0 <= i <= |doc.sections|
      invariant Plus(t, SectionsTally(doc.sections[i..])) == DocTally(doc)
    {
      var st := CountSection(doc.sections[i].phases);
      assert doc.sections[i..][1..] == doc.sections[i + 1..];
      PlusAssoc(t, st, SectionsTally(doc.sections[i + 1..]));
      t := Plus(t, st);
      i := i + 1;
    }
    assert doc.sections[i..] == [];
    o := Overview(t.total, t.completed, Percentage(t.completed, t.total), t.votes);
  }

  /** The public overview and the admin statistics agree on every figure they
      share, for any document. */
  method OverviewMatchesAdmin(doc: Doc) returns (o: Overview, stats: Stats)
    ensures o.totalTasks == stats.totalTasks && o.completedTasks == stats.completedTasks
    ensures o.completionPercentage == stats.completionPercentage && o.totalVotes == stats.totalVotes
  {
    o := CalculateOverview(doc);
    stats := CalculateStats(doc);
  }

  // ---------------------------------------------------------------------------
  // Voting from the page.
  // ---------------------------------------------------------------------------

  /** The key the page looks up for a task: the same `-`-join the store uses. */
  function TaskVoteKey(s: Section, p: string, w: string, task: Task): string
  {
    VoteKey(s.id, p, w, task.id)
  }

  /** A task can be clicked for a vote when this browser has not voted on
      its key and the task is not completed. */
  predicate CanVote(userVotes: set<string>, key: string, task: Task)
  {
    key !in userVotes && !task.completed
  }

  /** Task ids that do not repeat within a week. */
  predicate UniqueTaskIds(tasks: seq<Task>)
  {
    forall a, b :: 0 <= a < b < |tasks| ==> tasks[a].id != tasks[b].id
  }

  /** With section ids that do not repeat and task ids that do not repeat
      within the week, a click on task j of week w of phase p of section i
      votes for that very task; a task the rule lets through is pending, so
      the vote never reaches a completed task. */
  lemma ClickReachesClickedTask(doc: Doc, i: nat, p: string, w: string, j: nat, userVotes: set<string>)
    requires HasWeek(doc, i, p, w) && j < |WeekAt(doc, i, p, w).tasks|
    requires TreeEdits.UniqueIds(doc.sections) && UniqueTaskIds(WeekAt(doc, i, p, w).tasks)
    ensures var s, task := doc.sections[i], WeekAt(doc, i, p, w).tasks[j];
            && Targets(doc, s.id, p, w, task.id)
            && TargetTask(doc, s.id, p, w, task.id) == task
            && (CanVote(userVotes, TaskVoteKey(s, p, w, task), task) ==>
                  !TargetTask(doc, s.id, p, w, task.id).completed)
  {
    var s, tasks := doc.sections[i], WeekAt(doc, i, p, w).tasks;
    assert FindSection(doc.sections, s.id) == Some(i);
    assert FindTask(tasks, tasks[j].id) == Some(j);
  }

  /** With a repeated task id the click on the pending task votes for the
      completed one listed before it. */
  lemma ClickOnRepeatedIdReachesFirst()
    ensures var done := Task("x", "A", "Code", true, Count(0));
            var open := Task("x", "B", "Code", false, Count(0));
            var doc := Doc([Section("s", "S", "blue", true,
                              map["phase1" := Phase("P", 1, map["semaine1" := Week("W", 1, None, [done, open])])])]);
            && CanVote({}, TaskVoteKey(doc.sections[0], "phase1", "semaine1", open), open)
            && Targets(doc, "s", "phase1", "semaine1", open.id)
            && TargetTask(doc, "s", "phase1", "semaine1", open.id) == done
            && TargetTask(doc, "s", "phase1", "semaine1", open.id).completed
  {
    var done := Task("x", "A", "Code", true, Count(0));
    var open := Task("x", "B", "Code", false, Count(0));
    var doc := Doc([Section("s", "S", "blue", true,
                      map["phase1" := Phase("P", 1, map["semaine1" := Week("W", 1, None, [done, open])])])]);
    assert FindSection(doc.sections, "s") == Some(0);
    assert FindTask([done, open], "x") == Some(0);
  }

  /** The notice shown after a vote. */
  datatype VoteMessage = VoteMessage(show: bool, success: bool, text: string)

  const Hidden := VoteMessage(false, false, "")
  const Recorded := VoteMessage(true, true, "Votre vote a été enregistré avec succès!")
  const AlreadyVoted := VoteMessage(true, false, "Vous avez déjà voté pour cette tâche.")

  class PublicPage {
    const store: RoadmapStore
    var activeSection: Option<string>
    var voteMessage: VoteMessage

    constructor(store: RoadmapStore)
      ensures this.store == store
      ensures activeSection == InitialActive(store.roadmapData.sections)
      ensures voteMessage == Hidden
    {
      this.store := store;
      activeSection := InitialActive(store.roadmapData.sections);
      voteMessage := Hidden;
    }

    /** `handleVote`: the success notice exactly when the store accepted the
        vote, the "already voted" notice otherwise. */
    method HandleVote(sid: string, p: string, w: string, tid: string)
      modifies this, store
      ensures voteMessage == if VoteKey(sid, p, w, tid) !in old(store.userVotes) then Recorded else AlreadyVoted
      ensures VoteKey(sid, p, w, tid) in old(store.userVotes) ==>
                store.roadmapData == old(store.roadmapData) && store.userVotes == old(store.userVotes)
      ensures VoteKey(sid, p, w, tid) !in old(store.userVotes) ==>
                && store.roadmapData == IncrementVote(JsonCopy(old(store.roadmapData)), sid, p, w, tid)
                && store.userVotes == old(store.userVotes) + {VoteKey(sid, p, w, tid)}
      ensures activeSection == old(activeSection)
    {
      var success := store.VoteForTask(sid, p, w, tid);
      if success {
        voteMessage := Recorded;
      } else {
        voteMessage := AlreadyVoted;
      }
    }

    /** A click on a task of section s: it votes only when the rule allows,
        and a vote the rule allows is always accepted, so a click on a
        completed task never votes and the "already voted" notice never
        follows a click. The vote goes to the first task with the clicked
        task's id, which is the clicked task when ids do not repeat
        (ClickReachesClickedTask) and may be another one when they do
        (ClickOnRepeatedIdReachesFirst). */
    method ClickTask(s: Section, p: string, w: string, task: Task)
      modifies this, store
      ensures !CanVote(old(store.userVotes), TaskVoteKey(s, p, w, task), task) ==>
                && voteMessage == old(voteMessage)
                && store.roadmapData == old(store.roadmapData) && store.userVotes == old(store.userVotes)
      ensures CanVote(old(store.userVotes), TaskVoteKey(s, p, w, task), task) ==>
                && voteMessage == Recorded
                && store.roadmapData == IncrementVote(JsonCopy(old(store.roadmapData)), s.id, p, w, task.id)
                && store.userVotes == old(store.userVotes) + {TaskVoteKey(s, p, w, task)}
      ensures activeSection == old(activeSection)
    {
      var key := TaskVoteKey(s, p, w, task);
      if key !in store.userVotes && !task.completed {
        HandleVote(s.id, p, w, task.id);
      }
    }

    /** A tab click. */
    method SelectSection(sid: string)
      modifies this
      ensures activeSection == Some(sid) && voteMessage == old(voteMessage)
    {
      activeSection := Some(sid);
    }
  }
}
