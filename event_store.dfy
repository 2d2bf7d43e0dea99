/**
 * The store the three back-end operations run against, as an object whose
 * tables are updated in place. Each method performs the source's store calls
 * in the source's order and is proved to leave the tables exactly as the
 * matching specification function says.
 */
module EventStore {
  import opened Wrappers
  import opened EventTypes
  import opened Tables
  import opened Seqs
  import V = SubmitVote
  import C = CreateEvent
  import G = GetEvent

  class Store {
    var events: seq<Event>
    var timeSlots: seq<TimeSlot>
    var venues: seq<Venue>
    var participants: seq<Participant>
    var timeSlotVotes: seq<VoteRow>
    var venueVotes: seq<VoteRow>
    var nextId: nat

    /** The tables as one value. */
    function State(): Db
      reads this
    {
      Db(events, timeSlots, venues, participants, timeSlotVotes, venueVotes, nextId)
    }

    ghost predicate Valid()
      reads this
    {
      WellFormed(State())
    }

    constructor ()
      ensures Valid()
      ensures State() == EmptyDb
    {
      events, timeSlots, venues := [], [], [];
      participants, timeSlotVotes, venueVotes := [], [], [];
      nextId := 0;
    }

    /** Id the store gives the next inserted row. */
    method FreshId() returns (id: Id)
      modifies this
      ensures id == old(nextId)
      ensures State() == old(State()).(nextId := id + 1)
    {
      id := nextId;
      nextId := nextId + 1;
    }

    /** `from("events").insert({...}).select().single()`. */
    method InsertEvent(req: CreateEventRequest, shareToken: string, now: Timestamp) returns (event: Event)
      modifies this
      ensures event == C.NewEvent(old(nextId), req, shareToken, now)
      ensures State() == C.AddEvent(old(State()), event)
    {
      var id := FreshId();
      event := C.NewEvent(id, req, shareToken, now);
      events := events + [event];
    }

    /** `from("event_time_slots").insert(timeSlots)`. */
    method InsertTimeSlots(eventId: Id, times: seq<Timestamp>, now: Timestamp)
      modifies this
      ensures State() == C.AddSlots(old(State()), eventId, times, now)
    {
      var rows := C.SlotRows(eventId, nextId, times, now);
      timeSlots := timeSlots + rows;
      nextId := nextId + |rows|;
    }

    /** `from("event_venues").insert(venues)`. */
    method InsertVenues(eventId: Id, input: seq<VenueInput>, now: Timestamp)
      modifies this
      ensures State() == C.AddVenues(old(State()), eventId, input, now)
    {
      var rows := C.VenueRows(eventId, nextId, input, now);
      venues := venues + rows;
      nextId := nextId + |rows|;
    }

    /** `createEvent(request)`, with `uuid` what `uuidv4()` returned and `frontendUrl` the environment variable. */
    method CreateEvent(req: CreateEventRequest, uuid: string, frontendUrl: Option<string>, now: Timestamp, f: C.CreateFaults)
      returns (r: C.CreateResult)
      requires Valid()
      modifies this
      ensures Valid()
      ensures var o := C.CreateEventSpec(old(State()), req, uuid, frontendUrl, now, f);
        State() == o.db && r == o.result
    {
      C.PreservesWellFormed(State(), req, uuid, frontendUrl, now, f);
      var shareToken := C.ShareToken(uuid);
      if f.eventInsert {
        return C.CreateFailed(C.CreateError);
      }
      var event := InsertEvent(req, shareToken, now);
      if f.timeSlotsInsert {
        return C.CreateFailed(C.CreateError);
      }
      InsertTimeSlots(event.id, req.timeSlots, now);
      if f.venuesInsert {
        return C.CreateFailed(C.CreateError);
      }
      InsertVenues(event.id, req.venues, now);
      r := C.Created(event, C.ShareUrl(frontendUrl, shareToken));
    }

    /**
     * The event lookup, the participant query and then either the two vote
     * deletes or the participant insert.
     */
    method ReconcileParticipant(token: string, req: VoteRequest, sessionId: Option<string>, now: Timestamp, f: V.VoteFaults)
      returns (res: V.Resolution)
      modifies this
      ensures res == V.Resolve(old(State()), token, req, sessionId, now, f)
      ensures State() == V.Reconciled(old(State()), res, f)
    {
      var found := if f.eventLookup then None else Single(EventsWithToken(events, token));
      if found.None? {
        return V.NoEvent;
      }
      var event := found.value;
      var existing := if f.participantLookup then None
                      else Single(V.Candidates(participants, event.id, V.KeyFor(req.participantEmail, sessionId)));
      if existing.Some? {
        var participant := existing.value;
        if !f.deleteSlotVotes {
          timeSlotVotes := WithoutParticipant(timeSlotVotes, participant.id);
        }
        if !f.deleteVenueVotes {
          venueVotes := WithoutParticipant(venueVotes, participant.id);
        }
        res := V.Existing(participant);
      } else if f.participantInsert {
        res := V.InsertFailed;
      } else {
        var id := FreshId();
        var participant := V.NewParticipant(id, event.id, req, sessionId, now);
        participants := participants + [participant];
        res := V.Fresh(participant);
      }
    }

    /** The two vote inserts; an empty id list is skipped. */
    method InsertVoteRows(participant: Participant, req: VoteRequest, f: V.VoteFaults) returns (r: V.VoteResult)
      modifies this
      ensures var o := V.InsertVotes(old(State()), participant, req, f);
        State() == o.db && r == o.result
    {
      if |req.timeSlotIds| > 0 {
        if f.slotVotesInsert {
          return V.VoteFailed(V.VoteError);
        }
        timeSlotVotes := timeSlotVotes + VoteRows(participant.id, req.timeSlotIds);
      }
      if |req.venueIds| > 0 {
        if f.venueVotesInsert {
          return V.VoteFailed(V.VoteError);
        }
        venueVotes := venueVotes + VoteRows(participant.id, req.venueIds);
      }
      r := V.Voted(participant);
    }

    /** `submitVote(shareToken, voteData, sessionId)`. */
    method SubmitVote(token: string, req: VoteRequest, sessionId: Option<string>, now: Timestamp, f: V.VoteFaults)
      returns (r: V.VoteResult)
      requires Valid()
      modifies this
      ensures Valid()
      ensures var o := V.SubmitVoteSpec(old(State()), token, req, sessionId, now, f);
        State() == o.db && r == o.result
    {
      V.PreservesWellFormed(State(), token, req, sessionId, now, f);
      var res := ReconcileParticipant(token, req, sessionId, now, f);
      if res.NoEvent? || res.InsertFailed? {
        return V.VoteFailed(V.VoteError);
      }
      r := InsertVoteRows(res.p, req, f);
    }

    /** `getEventByToken(shareToken)`: four queries, nothing written. */
    method GetEventByToken(token: string, f: G.LoadFaults) returns (r: G.LoadResult)
      ensures r == G.GetEventByToken(State(), token, f)
    {
      var found := if f.eventQuery then None else Single(EventsWithToken(events, token));
      if found.None? || f.timeSlotsQuery || f.venuesQuery || f.participantsQuery {
        return G.LoadFailed(G.LoadError);
      }
      var event := found.value;
      var slots := SortBy(SlotsOf(timeSlots, event.id), G.DateTimeKey);
      var rows := SortBy(VenuesOf(venues, event.id), G.CreatedAtKey);
      var people := G.AttachVotes(State(), ParticipantsOf(participants, event.id));
      r := G.Loaded(EventWithDetails(event, slots, rows, people));
    }
  }
}
