/**
 * What `getEventByToken` (backend/api/events/get.ts) reads from the store:
 * the event with the share token, its time slots ordered by `date_time`, its
 * venues ordered by `created_at`, and its participants, each with the ids of
 * its own vote rows. Any failed query, and a token that does not match
 * exactly one event, gives "Event not found".
 */
module GetEvent {
  import opened Wrappers
  import opened Seqs
  import opened EventTypes
  import opened Tables
  import opened SubmitVote
  import opened CreateEvent

  const LoadError := "Event not found"

  /** Which of the four queries fail on this call. */
  datatype LoadFaults = LoadFaults(eventQuery: bool, timeSlotsQuery: bool, venuesQuery: bool, participantsQuery: bool)

  const NoLoadFaults := LoadFaults(false, false, false, false)

  /** `{ success: true, event }` or `{ success: false, error }`. */
  datatype LoadResult = Loaded(details: EventWithDetails) | LoadFailed(error: string)

  /** The column `.order("date_time")` sorts time slots by. */
  function DateTimeKey(t: TimeSlot): string { t.dateTime }

  /** The column `.order("created_at")` sorts venues by. */
  function CreatedAtKey(v: Venue): string { v.createdAt }

  /** `time_slot_votes (time_slot_id)`: the embedded vote rows, reduced to the option column. */
  function SlotRefs(ids: seq<Id>): (r: seq<TimeSlotRef>)
    ensures |r| == |ids|
    ensures forall i :: 0 <= i < |ids| ==> r[i].timeSlotId == ids[i]
  {
    if ids == [] then [] else [TimeSlotRef(ids[0])] + SlotRefs(ids[1..])
  }

  /** `venue_votes (venue_id)`. */
  function VenueRefs(ids: seq<Id>): (r: seq<VenueRef>)
    ensures |r| == |ids|
    ensures forall i :: 0 <= i < |ids| ==> r[i].venueId == ids[i]
  {
    if ids == [] then [] else [VenueRef(ids[0])] + VenueRefs(ids[1..])
  }

  /** A participant row with the vote rows that reference it embedded. */
  function WithVotes(db: Db, p: Participant): ParticipantWithVotes {
    ParticipantWithVotes(p, SlotRefs(OptionIdsOf(db.timeSlotVotes, p.id)), VenueRefs(OptionIdsOf(db.venueVotes, p.id)))
  }

  function AttachVotes(db: Db, ps: seq<Participant>): (r: seq<ParticipantWithVotes>)
    ensures |r| == |ps|
    ensures forall i :: 0 <= i < |ps| ==> r[i].participant == ps[i]
    ensures forall i :: 0 <= i < |ps| ==>
      && r[i].timeSlotVotes == SlotRefs(OptionIdsOf(db.timeSlotVotes, ps[i].id))
      && r[i].venueVotes == VenueRefs(OptionIdsOf(db.venueVotes, ps[i].id))
  {
    if ps == [] then [] else [WithVotes(db, ps[0])] + AttachVotes(db, ps[1..])
  }

  /**
   * `getEventByToken(shareToken)` on store `db`. Rows with equal sort keys
   * come back in the order `SortBy` puts them in.
   */
  function GetEventByToken(db: Db, token: string, f: LoadFaults): (r: LoadResult)
    ensures r.LoadFailed? <==>
      f.eventQuery || |EventsWithToken(db.events, token)| != 1
      || f.timeSlotsQuery || f.venuesQuery || f.participantsQuery
    ensures r.LoadFailed? ==> r.error == LoadError
    ensures r.Loaded? ==>
      var d := r.details;
      var e := EventsWithToken(db.events, token)[0];
      && d.event == e && e in db.events && e.shareToken == token
      && SortedBy(d.timeSlots, DateTimeKey)
      && multiset(d.timeSlots) == multiset(SlotsOf(db.timeSlots, e.id))
      && SortedBy(d.venues, CreatedAtKey)
      && multiset(d.venues) == multiset(VenuesOf(db.venues, e.id))
      && |d.participants| == |ParticipantsOf(db.participants, e.id)|
      && (forall i :: 0 <= i < |d.participants| ==>
           && d.participants[i].participant == ParticipantsOf(db.participants, e.id)[i]
           && d.participants[i].timeSlotVotes == SlotRefs(OptionIdsOf(db.timeSlotVotes, d.participants[i].participant.id))
           && d.participants[i].venueVotes == VenueRefs(OptionIdsOf(db.venueVotes, d.participants[i].participant.id)))
  {
    var found := if f.eventQuery then None else Single(EventsWithToken(db.events, token));
    if found.None? || f.timeSlotsQuery || f.venuesQuery || f.participantsQuery then LoadFailed(LoadError)
    else
      var e := found.value;
      var slots := SortBy(SlotsOf(db.timeSlots, e.id), DateTimeKey);
      var venues := SortBy(VenuesOf(db.venues, e.id), CreatedAtKey);
      Loaded(EventWithDetails(e, slots, venues, AttachVotes(db, ParticipantsOf(db.participants, e.id))))
  }

  /** Every time slot and venue loaded is one of the event's rows. */
  lemma LoadedRowsBelongToEvent(db: Db, token: string, f: LoadFaults)
    requires GetEventByToken(db, token, f).Loaded?
    ensures var d := GetEventByToken(db, token, f).details;
      && (forall t :: t in d.timeSlots ==> t in db.timeSlots && t.eventId == d.event.id)
      && (forall v :: v in d.venues ==> v in db.venues && v.eventId == d.event.id)
  {
    var d := GetEventByToken(db, token, f).details;
    forall t | t in d.timeSlots ensures t in db.timeSlots && t.eventId == d.event.id {
      assert t in multiset(d.timeSlots);
    }
    forall v | v in d.venues ensures v in db.venues && v.eventId == d.event.id {
      assert v in multiset(d.venues);
    }
  }

  lemma {:induction false} EventsWithTokenAppend(a: seq<Event>, b: seq<Event>, token: string)
    ensures EventsWithToken(a + b, token) == EventsWithToken(a, token) + EventsWithToken(b, token)
  {
    if a == [] { assert a + b == b; } else { assert (a + b)[1..] == a[1..] + b; EventsWithTokenAppend(a[1..], b, token); }
  }

  lemma {:induction false} NoEventsWithToken(events: seq<Event>, token: string)
    requires forall i :: 0 <= i < |events| ==> events[i].shareToken != token
    ensures EventsWithToken(events, token) == []
  {
    if events != [] { NoEventsWithToken(events[1..], token); }
  }

  /**
   * Create, then load: when the new token is not already in use, loading by it
   * gives back the created event with exactly the time slots and venues just
   * written (sorted) and no participants.
   */
  lemma CreatedEventLoads(db: Db, req: CreateEventRequest, uuid: string, frontendUrl: Option<string>, now: Timestamp)
    requires WellFormed(db)
    requires forall i :: 0 <= i < |db.events| ==> db.events[i].shareToken != ShareToken(uuid)
    ensures var c := CreateEventSpec(db, req, uuid, frontendUrl, now, NoCreateFaults);
      var l := GetEventByToken(c.db, ShareToken(uuid), NoLoadFaults);
      var eid := db.nextId;
      && c.result.Created?
      && l.Loaded?
      && l.details.event == c.result.event
      && multiset(l.details.timeSlots) == multiset(SlotRows(eid, eid + 1, req.timeSlots, now))
      && multiset(l.details.venues) == multiset(VenueRows(eid, eid + 1 + |req.timeSlots|, req.venues, now))
      && l.details.participants == []
  {
    var c := CreateEventSpec(db, req, uuid, frontendUrl, now, NoCreateFaults);
    CreatedStore(db, req, uuid, frontendUrl, now);
    var l := GetEventByToken(c.db, ShareToken(uuid), NoLoadFaults);
    assert l.Loaded? && l.details.event == c.result.event;
  }

  /** What the three queries of a load by the new token select right after the event was created. */
  lemma CreatedStore(db: Db, req: CreateEventRequest, uuid: string, frontendUrl: Option<string>, now: Timestamp)
    requires WellFormed(db)
    requires forall i :: 0 <= i < |db.events| ==> db.events[i].shareToken != ShareToken(uuid)
    ensures EventsWithToken(CreateEventSpec(db, req, uuid, frontendUrl, now, NoCreateFaults).db.events, ShareToken(uuid))
         == [NewEvent(db.nextId, req, ShareToken(uuid), now)]
    ensures SlotsOf(CreateEventSpec(db, req, uuid, frontendUrl, now, NoCreateFaults).db.timeSlots, db.nextId)
         == SlotRows(db.nextId, db.nextId + 1, req.timeSlots, now)
    ensures VenuesOf(CreateEventSpec(db, req, uuid, frontendUrl, now, NoCreateFaults).db.venues, db.nextId)
         == VenueRows(db.nextId, db.nextId + 1 + |req.timeSlots|, req.venues, now)
    ensures ParticipantsOf(CreateEventSpec(db, req, uuid, frontendUrl, now, NoCreateFaults).db.participants, db.nextId) == []
  {
    CreatedEventFound(db, req, uuid, frontendUrl, now);
    CreatedSlotsFound(db, req, uuid, frontendUrl, now);
    CreatedVenuesFound(db, req, uuid, frontendUrl, now);
    NewRowsOnly(db, db.nextId, [], []);
  }

  lemma CreatedEventFound(db: Db, req: CreateEventRequest, uuid: string, frontendUrl: Option<string>, now: Timestamp)
    requires WellFormed(db)
    requires forall i :: 0 <= i < |db.events| ==> db.events[i].shareToken != ShareToken(uuid)
    ensures EventsWithToken(CreateEventSpec(db, req, uuid, frontendUrl, now, NoCreateFaults).db.events, ShareToken(uuid))
         == [NewEvent(db.nextId, req, ShareToken(uuid), now)]
  {
    var c := CreateEventSpec(db, req, uuid, frontendUrl, now, NoCreateFaults);
    var ev := NewEvent(db.nextId, req, ShareToken(uuid), now);
    assert c.db.events == db.events + [ev];
    NewTokenFound(db.events, ev);
  }

  lemma CreatedSlotsFound(db: Db, req: CreateEventRequest, uuid: string, frontendUrl: Option<string>, now: Timestamp)
    requires WellFormed(db)
    ensures SlotsOf(CreateEventSpec(db, req, uuid, frontendUrl, now, NoCreateFaults).db.timeSlots, db.nextId)
         == SlotRows(db.nextId, db.nextId + 1, req.timeSlots, now)
  {
    CreatedSlotsTable(db, req, uuid, frontendUrl, now);
    NewSlotsOnly(db.timeSlots, db.nextId, SlotRows(db.nextId, db.nextId + 1, req.timeSlots, now));
  }

  lemma CreatedSlotsTable(db: Db, req: CreateEventRequest, uuid: string, frontendUrl: Option<string>, now: Timestamp)
    ensures CreateEventSpec(db, req, uuid, frontendUrl, now, NoCreateFaults).db.timeSlots
         == db.timeSlots + SlotRows(db.nextId, db.nextId + 1, req.timeSlots, now)
  {
  }

  lemma CreatedVenuesFound(db: Db, req: CreateEventRequest, uuid: string, frontendUrl: Option<string>, now: Timestamp)
    requires WellFormed(db)
    ensures VenuesOf(CreateEventSpec(db, req, uuid, frontendUrl, now, NoCreateFaults).db.venues, db.nextId)
         == VenueRows(db.nextId, db.nextId + 1 + |req.timeSlots|, req.venues, now)
  {
    CreatedVenuesTable(db, req, uuid, frontendUrl, now);
    NewVenuesOnly(db.venues, db.nextId, VenueRows(db.nextId, db.nextId + 1 + |req.timeSlots|, req.venues, now));
  }

  lemma CreatedVenuesTable(db: Db, req: CreateEventRequest, uuid: string, frontendUrl: Option<string>, now: Timestamp)
    ensures CreateEventSpec(db, req, uuid, frontendUrl, now, NoCreateFaults).db.venues
         == db.venues + VenueRows(db.nextId, db.nextId + 1 + |req.timeSlots|, req.venues, now)
  {
  }

  /** An event appended with a token no other event has is the only one found by it. */
  lemma NewTokenFound(events: seq<Event>, ev: Event)
    requires forall i :: 0 <= i < |events| ==> events[i].shareToken != ev.shareToken
    ensures EventsWithToken(events + [ev], ev.shareToken) == [ev]
  {
    NoEventsWithToken(events, ev.shareToken);
    EventsWithTokenAppend(events, [ev], ev.shareToken);
  }

  /** Rows appended for a new event id are, filtered by that id, exactly the appended rows. */
  lemma NewRowsOnly(db: Db, eid: Id, slots: seq<TimeSlot>, venues: seq<Venue>)
    requires WellFormed(db) && eid == db.nextId
    requires forall i :: 0 <= i < |slots| ==> slots[i].eventId == eid
    requires forall i :: 0 <= i < |venues| ==> venues[i].eventId == eid
    ensures SlotsOf(db.timeSlots + slots, eid) == slots
    ensures VenuesOf(db.venues + venues, eid) == venues
    ensures ParticipantsOf(db.participants, eid) == []
  {
    NewSlotsOnly(db.timeSlots, eid, slots);
    NewVenuesOnly(db.venues, eid, venues);
    ParticipantsOfOlder(db.participants, eid);
  }

  lemma NewSlotsOnly(older: seq<TimeSlot>, eid: Id, slots: seq<TimeSlot>)
    requires forall i :: 0 <= i < |older| ==> older[i].eventId < eid
    requires forall i :: 0 <= i < |slots| ==> slots[i].eventId == eid
    ensures SlotsOf(older + slots, eid) == slots
  {
    SlotsOfAppend(older, slots, eid);
    SlotsOfOlder(older, eid);
    SlotsOfUniform(slots, eid, eid);
  }

  lemma NewVenuesOnly(older: seq<Venue>, eid: Id, venues: seq<Venue>)
    requires forall i :: 0 <= i < |older| ==> older[i].eventId < eid
    requires forall i :: 0 <= i < |venues| ==> venues[i].eventId == eid
    ensures VenuesOf(older + venues, eid) == venues
  {
    VenuesOfAppend(older, venues, eid);
    VenuesOfOlder(older, eid);
    VenuesOfUniform(venues, eid, eid);
  }

  /**
   * Vote, then load: after a successful vote whose deletes succeeded, the
   * loaded event lists the voter with exactly the submitted time-slot and
   * venue ids.
   */
  lemma VoteVisibleInLoad(db: Db, token: string, req: VoteRequest, sessionId: Option<string>, now: Timestamp, f: VoteFaults)
    requires WellFormed(db)
    requires !f.deleteSlotVotes && !f.deleteVenueVotes
    requires SubmitVoteSpec(db, token, req, sessionId, now, f).result.Voted?
    ensures var r := SubmitVoteSpec(db, token, req, sessionId, now, f);
      var l := GetEventByToken(r.db, token, NoLoadFaults);
      && l.Loaded?
      && (exists i :: 0 <= i < |l.details.participants| &&
           l.details.participants[i] == ParticipantWithVotes(r.result.participant, SlotRefs(req.timeSlotIds), VenueRefs(req.venueIds)))
  {
    var r := SubmitVoteSpec(db, token, req, sessionId, now, f);
    var res := Resolve(db, token, req, sessionId, now, f);
    var e := EventFor(db, token, f).value;
    var p := res.p;
    assert p in r.db.participants && p.eventId == e.id;
    VotesReplaced(db, token, req, sessionId, now, f);
    var l := GetEventByToken(r.db, token, NoLoadFaults);
    var ps := ParticipantsOf(r.db.participants, e.id);
    var i :| 0 <= i < |ps| && ps[i] == p;
    assert l.details.participants[i].participant == p;
  }
}
