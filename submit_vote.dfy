/**
 * What `submitVote` (backend/api/events/vote.ts) does to the store, as a
 * function of the store before the call: find the event by share token,
 * reconcile the participant (email first, then session id, and `.single()`
 * so that only a unique match counts), clear an existing participant's votes,
 * otherwise add a participant row, then insert the new vote rows.
 *
 * Each store call can fail; `VoteFaults` says which ones do on this call.
 */
module SubmitVote {
  import opened Wrappers
  import opened EventTypes
  import opened Tables

  const VoteError := "Failed to submit vote"

  /** Which store calls fail on this call. */
  datatype VoteFaults = VoteFaults(
    eventLookup: bool,
    participantLookup: bool,
    deleteSlotVotes: bool,
    deleteVenueVotes: bool,
    participantInsert: bool,
    slotVotesInsert: bool,
    venueVotesInsert: bool)

  const NoVoteFaults := VoteFaults(false, false, false, false, false, false, false)

  /** `{ success: true, participant }` or `{ success: false, error }`. */
  datatype VoteResult = Voted(participant: Participant) | VoteFailed(error: string)

  datatype VoteOutcome = VoteOutcome(db: Db, result: VoteResult)

  /** JavaScript truthiness of an optional string: present and not empty. */
  predicate Truthy(o: Option<string>) {
    o.Some? && o.value != ""
  }

  /** The extra filter put on the participant query. */
  datatype LookupKey = ByEmail(email: string) | BySession(sessionId: string) | EventOnly

  function KeyFor(email: Option<string>, sessionId: Option<string>): (k: LookupKey)
    ensures k.ByEmail? <==> Truthy(email)
    ensures k.BySession? <==> !Truthy(email) && Truthy(sessionId)
    ensures k.ByEmail? ==> k.email == email.value
    ensures k.BySession? ==> k.sessionId == sessionId.value
  {
    if Truthy(email) then ByEmail(email.value)
    else if Truthy(sessionId) then BySession(sessionId.value)
    else EventOnly
  }

  predicate MatchesKey(p: Participant, eventId: Id, key: LookupKey) {
    p.eventId == eventId &&
    match key
    case ByEmail(m) => p.email == Some(m)
    case BySession(s) => p.sessionId == Some(s)
    case EventOnly => true
  }

  /** The rows the participant query selects, in table order. */
  function Candidates(ps: seq<Participant>, eventId: Id, key: LookupKey): (r: seq<Participant>)
    ensures forall p :: p in r <==> p in ps && MatchesKey(p, eventId, key)
  {
    if ps == [] then []
    else (if MatchesKey(ps[0], eventId, key) then [ps[0]] else []) + Candidates(ps[1..], eventId, key)
  }

  /** Without an email or session id the participant query is filtered by event alone. */
  lemma {:induction false} EventOnlyCandidates(ps: seq<Participant>, eventId: Id)
    ensures Candidates(ps, eventId, EventOnly) == ParticipantsOf(ps, eventId)
  {
    if ps != [] { EventOnlyCandidates(ps[1..], eventId); }
  }

  /** The participant the call attaches the votes to. */
  datatype Resolution =
    | NoEvent                     // the event lookup failed: nothing is written
    | Existing(p: Participant)    // exactly one participant row matched
    | Fresh(p: Participant)       // no unique match: this row is inserted
    | InsertFailed                // no unique match and the participant insert failed

  function NewParticipant(id: Id, eventId: Id, req: VoteRequest, sessionId: Option<string>, now: Timestamp): Participant {
    Participant(id, eventId, req.participantName, req.participantEmail, sessionId, now)
  }

  /** The event found by `.eq("share_token", token).single()`. */
  function EventFor(db: Db, token: string, f: VoteFaults): (r: Option<Event>)
    ensures r.None? <==> f.eventLookup || |EventsWithToken(db.events, token)| != 1
    ensures r.Some? ==> r.value in db.events && r.value.shareToken == token
  {
    if f.eventLookup then None else Single(EventsWithToken(db.events, token))
  }

  /**
   * Participant reconciliation. The lookup's own error is ignored by the
   * source, so a failed lookup reads as "no participant" and a new row is made.
   */
  function Resolve(db: Db, token: string, req: VoteRequest, sessionId: Option<string>, now: Timestamp, f: VoteFaults): (r: Resolution)
    ensures r.NoEvent? <==> EventFor(db, token, f).None?
    ensures r.Existing? ==>
      var e := EventFor(db, token, f).value;
      && !f.participantLookup
      && Candidates(db.participants, e.id, KeyFor(req.participantEmail, sessionId)) == [r.p]
      && r.p in db.participants && MatchesKey(r.p, e.id, KeyFor(req.participantEmail, sessionId))
    ensures r.Fresh? ==>
      var e := EventFor(db, token, f).value;
      && !f.participantInsert
      && (f.participantLookup || |Candidates(db.participants, e.id, KeyFor(req.participantEmail, sessionId))| != 1)
      && r.p == NewParticipant(db.nextId, e.id, req, sessionId, now)
    ensures r.InsertFailed? ==>
      var e := EventFor(db, token, f).value;
      && EventFor(db, token, f).Some? && f.participantInsert
      && (f.participantLookup || |Candidates(db.participants, e.id, KeyFor(req.participantEmail, sessionId))| != 1)
    ensures EventFor(db, token, f).Some? && !f.participantLookup
         && |Candidates(db.participants, EventFor(db, token, f).value.id, KeyFor(req.participantEmail, sessionId))| == 1
         ==> r.Existing?
  {
    match EventFor(db, token, f)
    case None => NoEvent
    case Some(e) =>
      var existing := if f.participantLookup then None
                      else Single(Candidates(db.participants, e.id, KeyFor(req.participantEmail, sessionId)));
      if existing.Some? then Existing(existing.value)
      else if f.participantInsert then InsertFailed
      else Fresh(NewParticipant(db.nextId, e.id, req, sessionId, now))
  }

  /** The participant rows the call creates votes for: the resolved one, if any. */
  predicate ResolvesTo(r: Resolution, pid: Id) {
    (r.Existing? || r.Fresh?) && r.p.id == pid
  }

  /** Inserts the time-slot votes, then the venue votes; an empty list is not inserted at all. */
  function InsertVotes(db: Db, p: Participant, req: VoteRequest, f: VoteFaults): (r: VoteOutcome)
    ensures r.db.events == db.events && r.db.timeSlots == db.timeSlots && r.db.venues == db.venues
    ensures r.db.participants == db.participants && r.db.nextId == db.nextId
    ensures r.result.Voted? <==> !(|req.timeSlotIds| > 0 && f.slotVotesInsert) && !(|req.venueIds| > 0 && f.venueVotesInsert)
    ensures r.result.Voted? ==> r.result.participant == p
    ensures r.result.VoteFailed? ==> r.result.error == VoteError
  {
    if |req.timeSlotIds| > 0 && f.slotVotesInsert then VoteOutcome(db, VoteFailed(VoteError))
    else
      var db1 := if |req.timeSlotIds| > 0 then db.(timeSlotVotes := db.timeSlotVotes + VoteRows(p.id, req.timeSlotIds)) else db;
      if |req.venueIds| > 0 && f.venueVotesInsert then VoteOutcome(db1, VoteFailed(VoteError))
      else
        var db2 := if |req.venueIds| > 0 then db1.(venueVotes := db1.venueVotes + VoteRows(p.id, req.venueIds)) else db1;
        VoteOutcome(db2, Voted(p))
  }

  /** The delete step for an existing participant; a failed delete is ignored and keeps the rows. */
  function ClearVotes(db: Db, pid: Id, f: VoteFaults): Db {
    db.(timeSlotVotes := if f.deleteSlotVotes then db.timeSlotVotes else WithoutParticipant(db.timeSlotVotes, pid),
        venueVotes := if f.deleteVenueVotes then db.venueVotes else WithoutParticipant(db.venueVotes, pid))
  }

  /** `submitVote(shareToken, voteData, sessionId)` on store `db`. */
  function SubmitVoteSpec(db: Db, token: string, req: VoteRequest, sessionId: Option<string>, now: Timestamp, f: VoteFaults): (r: VoteOutcome)
    ensures EventFor(db, token, f).None? ==> r == VoteOutcome(db, VoteFailed(VoteError))
    ensures r.result.VoteFailed? ==> r.result.error == VoteError
    ensures r.db.events == db.events && r.db.timeSlots == db.timeSlots && r.db.venues == db.venues
  {
    var res := Resolve(db, token, req, sessionId, now, f);
    if res.NoEvent? || res.InsertFailed? then VoteOutcome(db, VoteFailed(VoteError))
    else InsertVotes(Reconciled(db, res, f), res.p, req, f)
  }

  /** The store once the participant is settled: old votes cleared, or the new row added. */
  function Reconciled(db: Db, res: Resolution, f: VoteFaults): Db {
    match res
    case Existing(p) => ClearVotes(db, p.id, f)
    case Fresh(p) => db.(participants := db.participants + [p], nextId := db.nextId + 1)
    case _ => db
  }

  // ---------------------------------------------------------------------------
  // Vote rows: per participant, how InsertVotes changes the ids it owns.

  lemma InsertVotesIds(db: Db, p: Participant, req: VoteRequest, f: VoteFaults, q: Id)
    ensures var r := InsertVotes(db, p, req, f);
      && OptionIdsOf(r.db.timeSlotVotes, q) ==
           OptionIdsOf(db.timeSlotVotes, q) + (if q == p.id && !f.slotVotesInsert then req.timeSlotIds else [])
      && OptionIdsOf(r.db.venueVotes, q) ==
           OptionIdsOf(db.venueVotes, q)
           + (if q == p.id && !(|req.timeSlotIds| > 0 && f.slotVotesInsert) && !f.venueVotesInsert then req.venueIds else [])
  {
    OptionIdsOfAppend(db.timeSlotVotes, VoteRows(p.id, req.timeSlotIds), q);
    OptionIdsOfVoteRows(p.id, req.timeSlotIds, q);
    OptionIdsOfAppend(db.venueVotes, VoteRows(p.id, req.venueIds), q);
    OptionIdsOfVoteRows(p.id, req.venueIds, q);
  }

  /**
   * Replacement, not accumulation: after a successful call whose deletes
   * succeeded, the participant's votes are exactly the submitted lists.
   */
  lemma VotesReplaced(db: Db, token: string, req: VoteRequest, sessionId: Option<string>, now: Timestamp, f: VoteFaults)
    requires WellFormed(db)
    requires !f.deleteSlotVotes && !f.deleteVenueVotes
    requires SubmitVoteSpec(db, token, req, sessionId, now, f).result.Voted?
    ensures var r := SubmitVoteSpec(db, token, req, sessionId, now, f);
      && OptionIdsOf(r.db.timeSlotVotes, r.result.participant.id) == req.timeSlotIds
      && OptionIdsOf(r.db.venueVotes, r.result.participant.id) == req.venueIds
  {
    var res := Resolve(db, token, req, sessionId, now, f);
    var pid := res.p.id;
    if res.Existing? {
      OptionIdsOfWithout(db.timeSlotVotes, pid, pid);
      OptionIdsOfWithout(db.venueVotes, pid, pid);
      InsertVotesIds(ClearVotes(db, pid, f), res.p, req, f, pid);
    } else {
      OptionIdsOfFresh(db.timeSlotVotes, pid);
      OptionIdsOfFresh(db.venueVotes, pid);
      InsertVotesIds(db.(participants := db.participants + [res.p], nextId := db.nextId + 1), res.p, req, f, pid);
    }
  }

  /** Vote rows of every other participant are untouched, whatever the outcome. */
  lemma OtherVotesUntouched(db: Db, token: string, req: VoteRequest, sessionId: Option<string>, now: Timestamp, f: VoteFaults, q: Id)
    requires !ResolvesTo(Resolve(db, token, req, sessionId, now, f), q)
    ensures var r := SubmitVoteSpec(db, token, req, sessionId, now, f);
      && OptionIdsOf(r.db.timeSlotVotes, q) == OptionIdsOf(db.timeSlotVotes, q)
      && OptionIdsOf(r.db.venueVotes, q) == OptionIdsOf(db.venueVotes, q)
  {
    var res := Resolve(db, token, req, sessionId, now, f);
    if res.Existing? {
      OptionIdsOfWithout(db.timeSlotVotes, res.p.id, q);
      OptionIdsOfWithout(db.venueVotes, res.p.id, q);
      InsertVotesIds(ClearVotes(db, res.p.id, f), res.p, req, f, q);
    } else if res.Fresh? {
      InsertVotesIds(db.(participants := db.participants + [res.p], nextId := db.nextId + 1), res.p, req, f, q);
    }
  }

  /** No atomicity: a delete that fails is ignored, and the new votes are added to the old ones. */
  lemma FailedDeleteAccumulates(db: Db, token: string, req: VoteRequest, sessionId: Option<string>, now: Timestamp, f: VoteFaults)
    requires Resolve(db, token, req, sessionId, now, f).Existing?
    requires f.deleteSlotVotes && !f.slotVotesInsert
    ensures var p := Resolve(db, token, req, sessionId, now, f).p;
      OptionIdsOf(SubmitVoteSpec(db, token, req, sessionId, now, f).db.timeSlotVotes, p.id)
        == OptionIdsOf(db.timeSlotVotes, p.id) + req.timeSlotIds
  {
    var p := Resolve(db, token, req, sessionId, now, f).p;
    InsertVotesIds(ClearVotes(db, p.id, f), p, req, f, p.id);
  }

  /**
   * No atomicity: when the time-slot insert fails, the venue insert is never
   * tried. A participant whose old votes were deleted is left with no votes,
   * and the call reports failure.
   */
  lemma SlotInsertFailureLeavesNoVotes(db: Db, token: string, req: VoteRequest, sessionId: Option<string>, now: Timestamp, f: VoteFaults)
    requires WellFormed(db)
    requires var res := Resolve(db, token, req, sessionId, now, f); res.Existing? || res.Fresh?
    requires !f.deleteSlotVotes && !f.deleteVenueVotes
    requires |req.timeSlotIds| > 0 && f.slotVotesInsert
    ensures var r := SubmitVoteSpec(db, token, req, sessionId, now, f);
      var p := Resolve(db, token, req, sessionId, now, f).p;
      && r.result == VoteFailed(VoteError)
      && p in r.db.participants
      && OptionIdsOf(r.db.timeSlotVotes, p.id) == []
      && OptionIdsOf(r.db.venueVotes, p.id) == []
  {
    var res := Resolve(db, token, req, sessionId, now, f);
    var pid := res.p.id;
    if res.Existing? {
      OptionIdsOfWithout(db.timeSlotVotes, pid, pid);
      OptionIdsOfWithout(db.venueVotes, pid, pid);
    } else {
      OptionIdsOfFresh(db.timeSlotVotes, pid);
      OptionIdsOfFresh(db.venueVotes, pid);
    }
  }

  /** An empty id list is not inserted, so a fault of that insert cannot change the outcome. */
  lemma EmptyListsSkipInsert(db: Db, token: string, req: VoteRequest, sessionId: Option<string>, now: Timestamp, f: VoteFaults)
    ensures |req.timeSlotIds| == 0 ==>
      SubmitVoteSpec(db, token, req, sessionId, now, f) == SubmitVoteSpec(db, token, req, sessionId, now, f.(slotVotesInsert := false))
    ensures |req.venueIds| == 0 ==>
      SubmitVoteSpec(db, token, req, sessionId, now, f) == SubmitVoteSpec(db, token, req, sessionId, now, f.(venueVotesInsert := false))
  {
    if |req.timeSlotIds| == 0 {
      SameOutcomeUnderInsertFaults(db, token, req, sessionId, now, f, f.(slotVotesInsert := false));
    }
    if |req.venueIds| == 0 {
      SameOutcomeUnderInsertFaults(db, token, req, sessionId, now, f, f.(venueVotesInsert := false));
    }
  }

  /** Two fault sets that differ only in the vote insert of an empty list give the same outcome. */
  lemma SameOutcomeUnderInsertFaults(db: Db, token: string, req: VoteRequest, sessionId: Option<string>, now: Timestamp, f: VoteFaults, g: VoteFaults)
    requires f.eventLookup == g.eventLookup && f.participantLookup == g.participantLookup && f.participantInsert == g.participantInsert
    requires f.deleteSlotVotes == g.deleteSlotVotes && f.deleteVenueVotes == g.deleteVenueVotes
    requires |req.timeSlotIds| == 0 || f.slotVotesInsert == g.slotVotesInsert
    requires |req.venueIds| == 0 || f.venueVotesInsert == g.venueVotesInsert
    ensures SubmitVoteSpec(db, token, req, sessionId, now, f) == SubmitVoteSpec(db, token, req, sessionId, now, g)
  {
    assert EventFor(db, token, f) == EventFor(db, token, g);
    var res := Resolve(db, token, req, sessionId, now, f);
    assert res == Resolve(db, token, req, sessionId, now, g);
    if !(res.NoEvent? || res.InsertFailed?) {
      var db1 := Reconciled(db, res, f);
      assert db1 == Reconciled(db, res, g);
      assert InsertVotes(db1, res.p, req, f) == InsertVotes(db1, res.p, req, g);
    }
  }

  /** A matched participant is returned as stored (the new name is not written back) and no participant row is added. */
  lemma MatchedParticipantUnchanged(db: Db, token: string, req: VoteRequest, sessionId: Option<string>, now: Timestamp, f: VoteFaults)
    requires Resolve(db, token, req, sessionId, now, f).Existing?
    ensures var r := SubmitVoteSpec(db, token, req, sessionId, now, f);
      var p := Resolve(db, token, req, sessionId, now, f).p;
      && r.db.participants == db.participants && r.db.nextId == db.nextId
      && (r.result.Voted? ==> r.result.participant == p && p in db.participants)
  {
  }

  /** Without a unique match exactly one participant row is added, carrying the request's name and email and the session id. */
  lemma NewParticipantAdded(db: Db, token: string, req: VoteRequest, sessionId: Option<string>, now: Timestamp, f: VoteFaults)
    requires EventFor(db, token, f).Some?
    requires f.participantLookup || |Candidates(db.participants, EventFor(db, token, f).value.id, KeyFor(req.participantEmail, sessionId))| != 1
    ensures var r := SubmitVoteSpec(db, token, req, sessionId, now, f);
      var e := EventFor(db, token, f).value;
      if f.participantInsert then r == VoteOutcome(db, VoteFailed(VoteError))
      else
        && r.db.participants == db.participants + [Participant(db.nextId, e.id, req.participantName, req.participantEmail, sessionId, now)]
        && r.db.nextId == db.nextId + 1
  {
  }

  /**
   * With neither a truthy email nor a truthy session id, the participant query
   * is filtered by event only: the event's sole participant, when there is
   * exactly one, is taken as the voter.
   */
  lemma AnonymousReusesSoleParticipant(db: Db, token: string, req: VoteRequest, sessionId: Option<string>, now: Timestamp, f: VoteFaults)
    requires !Truthy(req.participantEmail) && !Truthy(sessionId) && !f.participantLookup
    requires EventFor(db, token, f).Some?
    requires |ParticipantsOf(db.participants, EventFor(db, token, f).value.id)| == 1
    ensures Resolve(db, token, req, sessionId, now, f)
         == Existing(ParticipantsOf(db.participants, EventFor(db, token, f).value.id)[0])
  {
    EventOnlyCandidates(db.participants, EventFor(db, token, f).value.id);
  }

  /** A vote through one event's token never adds or changes participant rows of another event. */
  lemma OtherEventsIsolated(db: Db, token: string, req: VoteRequest, sessionId: Option<string>, now: Timestamp, f: VoteFaults, other: Id)
    requires EventFor(db, token, f).Some? ==> other != EventFor(db, token, f).value.id
    ensures ParticipantsOf(SubmitVoteSpec(db, token, req, sessionId, now, f).db.participants, other)
         == ParticipantsOf(db.participants, other)
  {
    var res := Resolve(db, token, req, sessionId, now, f);
    if res.Fresh? {
      ParticipantsOfAppend(db.participants, [res.p], other);
    }
  }

  /** The store stays well formed: the id generator stays ahead of every id and reference. */
  lemma PreservesWellFormed(db: Db, token: string, req: VoteRequest, sessionId: Option<string>, now: Timestamp, f: VoteFaults)
    requires WellFormed(db)
    ensures WellFormed(SubmitVoteSpec(db, token, req, sessionId, now, f).db)
  {
    var res := Resolve(db, token, req, sessionId, now, f);
    if res.Existing? {
      var k :| 0 <= k < |db.participants| && db.participants[k] == res.p;
      ReconciledWellFormed(db, res, f);
      InsertVotesWellFormed(Reconciled(db, res, f), res.p, req, f);
    } else if res.Fresh? {
      var e := EventFor(db, token, f).value;
      var k :| 0 <= k < |db.events| && db.events[k] == e;
      ReconciledWellFormed(db, res, f);
      InsertVotesWellFormed(Reconciled(db, res, f), res.p, req, f);
    }
  }

  /** Settling the participant keeps the store well formed: a cleared row's id, or the new row's id, is below the next id. */
  lemma ReconciledWellFormed(db: Db, res: Resolution, f: VoteFaults)
    requires WellFormed(db)
    requires res.Existing? ==> res.p.id < db.nextId
    requires res.Fresh? ==> res.p.id == db.nextId && res.p.eventId < db.nextId
    ensures WellFormed(Reconciled(db, res, f))
    ensures (res.Existing? || res.Fresh?) ==> res.p.id < Reconciled(db, res, f).nextId
  {
    if res.Existing? {
      VotesBelowKept(db.timeSlotVotes, res.p.id, [], db.nextId, db.nextId);
      VotesBelowKept(db.venueVotes, res.p.id, [], db.nextId, db.nextId);
    } else if res.Fresh? {
      var grown := Reconciled(db, res, f);
      assert VotesBelow(grown.timeSlotVotes, grown.nextId);
      assert VotesBelow(grown.venueVotes, grown.nextId);
    }
  }

  lemma InsertVotesWellFormed(db: Db, p: Participant, req: VoteRequest, f: VoteFaults)
    requires WellFormed(db) && p.id < db.nextId
    ensures WellFormed(InsertVotes(db, p, req, f).db)
  {
    VotesBelowKept(db.timeSlotVotes, p.id, req.timeSlotIds, db.nextId, db.nextId);
    VotesBelowKept(db.venueVotes, p.id, req.venueIds, db.nextId, db.nextId);
  }

  lemma {:induction false} CandidatesAppend(a: seq<Participant>, b: seq<Participant>, eventId: Id, key: LookupKey)
    ensures Candidates(a + b, eventId, key) == Candidates(a, eventId, key) + Candidates(b, eventId, key)
  {
    if a == [] { assert a + b == b; } else { assert (a + b)[1..] == a[1..] + b; CandidatesAppend(a[1..], b, eventId, key); }
  }

  /**
   * Two submissions in a row with the same email, when at most one participant
   * of the event had that email before: both succeed, they land on one and the
   * same participant row, that row is the only one with the email, and its
   * votes are exactly those of the second submission.
   */
  lemma ResubmitByEmail(db: Db, token: string, first: VoteRequest, second: VoteRequest,
                        s1: Option<string>, s2: Option<string>, now1: Timestamp, now2: Timestamp)
    requires WellFormed(db)
    requires Truthy(first.participantEmail) && second.participantEmail == first.participantEmail
    requires EventFor(db, token, NoVoteFaults).Some?
    requires |Candidates(db.participants, EventFor(db, token, NoVoteFaults).value.id, ByEmail(first.participantEmail.value))| <= 1
    ensures var r1 := SubmitVoteSpec(db, token, first, s1, now1, NoVoteFaults);
      var r2 := SubmitVoteSpec(r1.db, token, second, s2, now2, NoVoteFaults);
      var e := EventFor(db, token, NoVoteFaults).value;
      && r1.result.Voted? && r2.result.Voted?
      && r2.result.participant == r1.result.participant
      && Candidates(r2.db.participants, e.id, ByEmail(first.participantEmail.value)) == [r1.result.participant]
      && OptionIdsOf(r2.db.timeSlotVotes, r2.result.participant.id) == second.timeSlotIds
      && OptionIdsOf(r2.db.venueVotes, r2.result.participant.id) == second.venueIds
  {
    var f := NoVoteFaults;
    var e := EventFor(db, token, f).value;
    var key := ByEmail(first.participantEmail.value);
    var r1 := SubmitVoteSpec(db, token, first, s1, now1, f);
    var res1 := Resolve(db, token, first, s1, now1, f);
    var p := res1.p;
    if res1.Fresh? {
      CandidatesAppend(db.participants, [p], e.id, key);
      assert Candidates(db.participants, e.id, key) == [] by {
        if |Candidates(db.participants, e.id, key)| == 1 { assert false; }
      }
    }
    assert Candidates(r1.db.participants, e.id, key) == [p];
    assert EventFor(r1.db, token, f) == EventFor(db, token, f);
    assert Resolve(r1.db, token, second, s2, now2, f) == Existing(p);
    PreservesWellFormed(db, token, first, s1, now1, f);
    VotesReplaced(r1.db, token, second, s2, now2, f);
  }
}
