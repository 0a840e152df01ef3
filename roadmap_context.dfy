/// The client-side store every page shares: the roadmap document and the
/// ledger of vote keys this browser has already used, with the vote operation
/// and the admin secret check.
module RoadmapContext {
  import opened Roadmap
  import TreeEdits

  /** The ledger key of a vote: the four coordinates joined with `-`. */
  function VoteKey(sid: string, p: string, w: string, tid: string): string
  {
    sid + "-" + p + "-" + w + "-" + tid
  }

  predicate NoDash(s: string)
  {
    forall k :: 0 <= k < |s| ==> s[k] != '-'
  }

  /** The seed data's own ids contain `-`, so two different tasks can share a
      ledger key: a vote for one then blocks the vote for the other. */
  lemma VoteKeyCollides()
    ensures VoteKey("ecritures-comptables", "mai", "semaine1", "ec-m1t1")
         == VoteKey("ecritures", "comptables-mai", "semaine1", "ec-m1t1")
  {
  }

  /** Splitting at the first `-` is unique when the part before it has none. */
  lemma SplitAtDash(a: string, x: string, b: string, y: string)
    requires NoDash(a) && NoDash(b)
    requires a + "-" + x == b + "-" + y
    ensures a == b && x == y
  {
    var l := a + "-" + x;
    var r := b + "-" + y;
    assert l[|a|] == '-' && r[|b|] == '-';
    assert |a| == |b|;
    assert a == l[..|a|] && b == r[..|b|];
    assert x == l[|a| + 1..] && y == r[|b| + 1..];
  }

  /** Without `-` inside the ids, distinct coordinates give distinct keys. */
  lemma VoteKeyInjective(s1: string, p1: string, w1: string, t1: string,
                         s2: string, p2: string, w2: string, t2: string)
    requires NoDash(s1) && NoDash(p1) && NoDash(w1)
    requires NoDash(s2) && NoDash(p2) && NoDash(w2)
    requires VoteKey(s1, p1, w1, t1) == VoteKey(s2, p2, w2, t2)
    ensures s1 == s2 && p1 == p2 && w1 == w2 && t1 == t2
  {
    var r1, r2 := p1 + "-" + w1 + "-" + t1, p2 + "-" + w2 + "-" + t2;
    assert VoteKey(s1, p1, w1, t1) == s1 + "-" + r1;
    assert VoteKey(s2, p2, w2, t2) == s2 + "-" + r2;
    SplitAtDash(s1, r1, s2, r2);
    var q1, q2 := w1 + "-" + t1, w2 + "-" + t2;
    assert r1 == p1 + "-" + q1 && r2 == p2 + "-" + q2;
    SplitAtDash(p1, q1, p2, q2);
    SplitAtDash(w1, t1, w2, t2);
  }

  /** What a client vote does to the statistics. The copy turns a NaN count
      into null, so the vote total rises by one exactly when the vote reaches
      a task whose count is present; the task counts never change. */
  lemma ClientVoteTally(doc: Doc, sid: string, p: string, w: string, tid: string)
    ensures var before := DocTally(doc);
            var after := DocTally(IncrementVote(JsonCopy(doc), sid, p, w, tid));
            && after.total == before.total
            && after.completed == before.completed
            && after.votes == before.votes +
                 (if Targets(doc, sid, p, w, tid) && !TargetTask(doc, sid, p, w, tid).votes.Absent? then 1 else 0)
  {
    JsonCopyTally(doc);
    JsonCopyTargets(doc, sid, p, w, tid);
    IncrementVoteTally(JsonCopy(doc), sid, p, w, tid);
  }

  /** The count the voted task ends with: one more than it read before, even
      when it was NaN; only an absent count gives NaN. */
  lemma ClientVoteCount(doc: Doc, sid: string, p: string, w: string, tid: string)
    requires Targets(doc, sid, p, w, tid)
    ensures var t := TargetTask(doc, sid, p, w, tid);
            var r := IncrementVote(JsonCopy(doc), sid, p, w, tid);
            && Targets(r, sid, p, w, tid)
            && TargetTask(r, sid, p, w, tid).votes == if t.votes.Absent? then NaN else Count(VoteCount(t) + 1)
  {
    var c := JsonCopy(doc);
    JsonCopyTargets(doc, sid, p, w, tid);
    var i := Resolve(c, sid, p, w).value;
    var tasks := WeekAt(c, i, p, w).tasks;
    var j := FindTask(tasks, tid).value;
    var r := IncrementVote(c, sid, p, w, tid);
    var after := WeekAt(r, i, p, w);
    TreeEdits.ResolveAfterPutWeek(c, i, p, w, after, sid, p, w);
    assert Resolve(r, sid, p, w) == Some(i);
    FindTaskSameIds(after.tasks, tasks, tid);
  }

  lemma InheritedNamesHaveNoDash()
    ensures forall n :: n in InheritedNames ==> NoDash(n)
  {
    assert NoDash("constructor");
    assert NoDash("hasOwnProperty");
    assert NoDash("isPrototypeOf");
    assert NoDash("propertyIsEnumerable");
    assert NoDash("toString");
    assert NoDash("toLocaleString");
    assert NoDash("valueOf");
    assert NoDash("__proto__");
    assert NoDash("__defineGetter__");
    assert NoDash("__defineSetter__");
    assert NoDash("__lookupGetter__");
    assert NoDash("__lookupSetter__");
  }

  /** The ledger is a plain object, so `userVotes[voteKey]` would also be
      truthy for a name inherited from `Object.prototype`. A vote key always
      holds a `-` and none of those names does, so the key lookup is exactly
      membership among the recorded keys. */
  lemma VoteKeyNotInherited(sid: string, p: string, w: string, tid: string)
    ensures VoteKey(sid, p, w, tid) !in InheritedNames
  {
    var key := VoteKey(sid, p, w, tid);
    assert key[|sid|] == '-';
    InheritedNamesHaveNoDash();
  }

  /** `checkAdminAccess`: only the fixed secret opens the admin page. */
  function CheckAdminAccess(adminSecret: string): (r: bool)
    ensures r <==> adminSecret == "admin123"
  {
    adminSecret == "admin123"
  }

  /** The provider's two state cells. The ledger holds the keys whose value
      is `true`; no other value is ever stored. */
  class RoadmapStore {
    var roadmapData: Doc
    var userVotes: set<string>

    /** The provider's initial state: each cell is what localStorage holds,
        parsed back from the JSON it was saved as, or the seed when nothing is
        saved. `saved` is the document as it was when it was saved. */
    constructor(saved: Option<Doc>, seed: Doc, votes: set<string>)
      ensures roadmapData == if saved.Some? then JsonCopy(saved.value) else seed
      ensures userVotes == votes
    {
      roadmapData := if saved.Some? then JsonCopy(saved.value) else seed;
      userVotes := votes;
    }

    /** `voteForTask`: refused, with nothing changed, when the key is in the
        ledger; otherwise the document is replaced by its JSON copy in which
        the first task with the id in that week gains a vote (if the week and
        the task exist), and the key is recorded, even when nothing was found. */
    method VoteForTask(sid: string, p: string, w: string, tid: string) returns (ok: bool)
      modifies this
      ensures ok <==> VoteKey(sid, p, w, tid) !in old(userVotes)
      ensures !ok ==> roadmapData == old(roadmapData) && userVotes == old(userVotes)
      ensures ok ==> roadmapData == IncrementVote(JsonCopy(old(roadmapData)), sid, p, w, tid)
      ensures ok ==> userVotes == old(userVotes) + {VoteKey(sid, p, w, tid)}
    {
      var key := VoteKey(sid, p, w, tid);
      if key in userVotes {
        return false;
      }
      var doc := JsonCopy(roadmapData);
      var i := LookupWeek(doc, sid, p, w);
      if i.Some? {
        var wk := doc.sections[i.value].phases[p].weeks[w];
        var j := LookupTask(wk.tasks, tid);
        if j.Some? {
          var tasks := wk.tasks;
          tasks := tasks[j.value := Bump(tasks[j.value])];
          doc := PutWeek(doc, i.value, p, w, wk.(tasks := tasks));
        }
      }
      roadmapData := doc;
      userVotes := userVotes + {key};
      return true;
    }

    /** Two votes in a row with the same coordinates: the second is always
        refused, so the pair does what one vote does. */
    method VoteTwice(sid: string, p: string, w: string, tid: string) returns (first: bool, second: bool)
      modifies this
      ensures !second
      ensures first <==> VoteKey(sid, p, w, tid) !in old(userVotes)
      ensures roadmapData == if first then IncrementVote(JsonCopy(old(roadmapData)), sid, p, w, tid) else old(roadmapData)
      ensures userVotes == old(userVotes) + {VoteKey(sid, p, w, tid)}
    {
      first := VoteForTask(sid, p, w, tid);
      second := VoteForTask(sid, p, w, tid);
    }
  }
}
