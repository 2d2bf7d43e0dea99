/**
 * The records of types/event.ts. Row identifiers are generated by the store
 * and are modelled as natural numbers; timestamps (`date_time`, `created_at`,
 * `updated_at`) are the ISO-8601 strings the store holds.
 */
module EventTypes {
  import opened Wrappers

  type Id = nat
  type Timestamp = string

  /** `"active" | "completed" | "cancelled"`; a new event starts `Active`. */
  datatype EventStatus = Active | Completed | Cancelled

  datatype Event = Event(
    id: Id,
    title: string,
    description: Option<string>,
    creatorEmail: Option<string>,
    creatorName: Option<string>,
    shareToken: string,
    status: EventStatus,
    createdAt: Timestamp,
    updatedAt: Timestamp)

  datatype TimeSlot = TimeSlot(id: Id, eventId: Id, dateTime: Timestamp, createdAt: Timestamp)

  datatype Venue = Venue(
    id: Id,
    eventId: Id,
    name: string,
    address: Option<string>,
    description: Option<string>,
    createdAt: Timestamp)

  /** `email` and `sessionId` are the two keys a later vote is reconciled by. */
  datatype Participant = Participant(
    id: Id,
    eventId: Id,
    name: string,
    email: Option<string>,
    sessionId: Option<string>,
    createdAt: Timestamp)

  /**
   * A row of `time_slot_votes` (option = `time_slot_id`) or of `venue_votes`
   * (option = `venue_id`): nothing but the link from a participant to an option.
   */
  datatype VoteRow = VoteRow(participantId: Id, optionId: Id)

  /**
   * A venue as the create-event form sends it. The declared type has only
   * `name`, `address` and `description`; the venue picker also puts
   * `place_id`, `price_level` and the AI summary on each entry, and those
   * reach the server too.
   */
  datatype VenueInput = VenueInput(
    name: string,
    address: Option<string>,
    description: Option<string>,
    placeId: Option<string>,
    priceLevel: Option<int>,
    aiSummary: Option<string>)

  datatype CreateEventRequest = CreateEventRequest(
    title: string,
    description: Option<string>,
    creatorName: Option<string>,
    creatorEmail: Option<string>,
    timeSlots: seq<Timestamp>,
    venues: seq<VenueInput>)

  /** Both id lists are required and may be empty. */
  datatype VoteRequest = VoteRequest(
    participantName: string,
    participantEmail: Option<string>,
    timeSlotIds: seq<Id>,
    venueIds: seq<Id>)

  datatype TimeSlotRef = TimeSlotRef(timeSlotId: Id)
  datatype VenueRef = VenueRef(venueId: Id)

  /** A participant row together with the ids of its own vote rows. */
  datatype ParticipantWithVotes = ParticipantWithVotes(
    participant: Participant,
    timeSlotVotes: seq<TimeSlotRef>,
    venueVotes: seq<VenueRef>)

  /** `EventWithDetails`: the event's fields extended with its options and participants. */
  datatype EventWithDetails = EventWithDetails(
    event: Event,
    timeSlots: seq<TimeSlot>,
    venues: seq<Venue>,
    participants: seq<ParticipantWithVotes>)
}
