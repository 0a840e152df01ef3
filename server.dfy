/// The Express back end: one stored roadmap document, one vote ledger per
/// user, and the timestamp of the last change the clients poll for. Files on
/// disk are modelled by the fields they mirror; the clock value a handler
/// reads is a parameter.
module Server {
  import opened Roadmap

  /** What a vote request carries; a missing field is the empty string, which
      JavaScript treats as falsy just like `undefined`. */
  datatype VoteRequest = VoteRequest(userId: string, voteKey: string, sectionId: string,
                                     phase: string, week: string, taskId: string)

  /** The `since` query parameter after `parseInt(since || '0')`: absent (or
      empty), a number, or text that parses to NaN. */
  datatype Since = Absent | Parsed(n: int) | NotANumber

  /** The replies the handlers send. */
  datatype Response =
    | NotInitialised                  // 404 { error }
    | Incomplete                      // 400 { error }
    | RoadmapBody(doc: Doc)
    | Outcome(success: bool)
    | VotesBody(keys: set<string>)
    | UpdateStatus(hasChanges: bool, lastUpdateTimestamp: int)

  predicate Complete(req: VoteRequest)
  {
    req.userId != "" && req.voteKey != "" && req.sectionId != "" &&
    req.phase != "" && req.week != "" && req.taskId != ""
  }

  /** Whether a stored document holds the task the request names. */
  predicate Reaches(doc: Option<Doc>, req: VoteRequest)
  {
    doc.Some? && Targets(doc.value, req.sectionId, req.phase, req.week, req.taskId)
  }

  /** The user's stored ledger, empty for a user who never voted. */
  function LedgerOf(ledger: map<string, set<string>>, userId: string): set<string>
  {
    if userId in ledger then ledger[userId] else {}
  }

  /** `userVotes[voteKey]` is truthy on the ledger parsed from the user's
      file (or on `{}`): the key was recorded, or it names an inherited
      member, which the server then can never record. */
  predicate HasVoted(ledger: map<string, set<string>>, userId: string, key: string)
  {
    key in LedgerOf(ledger, userId) || key in InheritedNames
  }

  /** `since < lastUpdateTimestamp`, where a comparison with NaN is false. */
  predicate HasChanges(since: Since, lastUpdate: int)
  {
    match since
    case Absent => 0 < lastUpdate
    case Parsed(n) => n < lastUpdate
    case NotANumber => false
  }

  /** Once the client has seen the current timestamp, it is told nothing
      changed; any older timestamp reports a change. */
  lemma HasChangesSinceLatest(lastUpdate: int, seen: int)
    ensures !HasChanges(Parsed(lastUpdate), lastUpdate)
    ensures seen < lastUpdate ==> HasChanges(Parsed(seen), lastUpdate)
  {
  }

  class RoadmapServer {
    var doc: Option<Doc>
    var ledger: map<string, set<string>>
    var lastUpdate: int

    /** The state after start-up: the document read from disk if there was
        one, the ledgers on disk, and the stored timestamp (the clock value
        when none is stored). */
    constructor(stored: Option<Doc>, ledgers: map<string, set<string>>, lastUpdate: int)
      ensures doc == stored && ledger == ledgers && this.lastUpdate == lastUpdate
    {
      doc := stored;
      ledger := ledgers;
      this.lastUpdate := lastUpdate;
    }

    /** GET /api/roadmap: 404 until a document was stored, then the document. */
    method GetRoadmap() returns (res: Response)
      ensures doc.None? <==> res.NotInitialised?
      ensures doc.Some? ==> res == RoadmapBody(doc.value)
    {
      if doc.None? {
        return NotInitialised;
      }
      return RoadmapBody(doc.value);
    }

    /** PUT /api/roadmap: the body replaces the document wholesale and the
        timestamp becomes the current clock value. */
    method PutRoadmap(body: Doc, now: int) returns (res: Response)
      modifies this
      ensures doc == Some(body) && lastUpdate == now && ledger == old(ledger)
      ensures res == Outcome(true)
    {
      doc := Some(body);
      lastUpdate := now;
      return Outcome(true);
    }

    /** POST /api/votes. An incomplete request is refused with 400; a key the
        user's ledger holds, or one naming an inherited member, gives
        `success: false`; otherwise the key is
        recorded, and when the section, phase, week and task all resolve the
        task gains a vote and the timestamp moves to `now`. The key is taken
        as sent, never checked against the other fields. Nothing but the
        user's ledger entry, the document and the timestamp can change, and
        no ledger ever loses a key. */
    method PostVote(req: VoteRequest, now: int) returns (res: Response)
      modifies this
      ensures !Complete(req) ==> res == Incomplete && doc == old(doc) && ledger == old(ledger)
                                 && lastUpdate == old(lastUpdate)
      ensures Complete(req) && HasVoted(old(ledger), req.userId, req.voteKey) ==>
                res == Outcome(false) && doc == old(doc) && ledger == old(ledger)
                && lastUpdate == old(lastUpdate)
      ensures Complete(req) && !HasVoted(old(ledger), req.userId, req.voteKey) ==>
                && res == Outcome(true)
                && ledger == old(ledger)[req.userId := LedgerOf(old(ledger), req.userId) + {req.voteKey}]
                && (old(doc).None? ==> doc == old(doc))
                && (old(doc).Some? ==>
                      doc == Some(IncrementVote(old(doc).value, req.sectionId, req.phase, req.week, req.taskId)))
                && (Reaches(old(doc), req) ==> lastUpdate == now)
                && (!Reaches(old(doc), req) ==> lastUpdate == old(lastUpdate))
      ensures forall u :: u in old(ledger) ==> u in ledger && old(ledger)[u] <= ledger[u]
    {
      if !Complete(req) {
        return Incomplete;
      }
      var userVotes := LedgerOf(ledger, req.userId);
      if req.voteKey in userVotes || req.voteKey in InheritedNames {
        return Outcome(false);
      }
      userVotes := userVotes + {req.voteKey};
      ledger := ledger[req.userId := userVotes];
      if doc.Some? {
        var d := doc.value;
        var i := LookupWeek(d, req.sectionId, req.phase, req.week);
        if i.Some? {
          var wk := d.sections[i.value].phases[req.phase].weeks[req.week];
          var j := LookupTask(wk.tasks, req.taskId);
          if j.Some? {
            var tasks := wk.tasks;
            tasks := tasks[j.value := Bump(tasks[j.value])];
            doc := Some(PutWeek(d, i.value, req.phase, req.week, wk.(tasks := tasks)));
            lastUpdate := now;
          }
        }
      }
      return Outcome(true);
    }

    /** GET /api/votes/:userId: the user's ledger, empty for an unknown user. */
    method GetVotes(userId: string) returns (res: Response)
      ensures userId !in ledger ==> res == VotesBody({})
      ensures userId in ledger ==> res == VotesBody(ledger[userId])
    {
      return VotesBody(LedgerOf(ledger, userId));
    }

    /** GET /api/roadmap/updates: whether the timestamp is past `since`, and
        the timestamp itself; nothing changes. */
    method CheckForUpdates(since: Since) returns (res: Response)
      ensures res.UpdateStatus? && res.lastUpdateTimestamp == lastUpdate
      ensures res.hasChanges <==> HasChanges(since, lastUpdate)
    {
      var n: int;
      match since {
        case NotANumber =>
          return UpdateStatus(false, lastUpdate);
        case Absent =>
          n := 0;
        case Parsed(m) =>
          n := m;
      }
      return UpdateStatus(n < lastUpdate, lastUpdate);
    }

    /** The same vote posted twice: the second is always refused, so the pair
        raises the task's count by one at most. */
    method PostVoteTwice(req: VoteRequest, now: int, later: int) returns (first: Response, second: Response)
      requires Complete(req)
      modifies this
      ensures second == Outcome(false)
      ensures first == Outcome(!HasVoted(old(ledger), req.userId, req.voteKey))
      ensures old(doc).Some? && first == Outcome(true) ==>
                doc == Some(IncrementVote(old(doc).value, req.sectionId, req.phase, req.week, req.taskId))
      ensures first == Outcome(false) ==> doc == old(doc)
    {
      first := PostVote(req, now);
      second := PostVote(req, later);
    }
  }
}
