/**
 * What `createEvent` (backend/api/events/create.ts) does to the store: derive
 * the share token from a UUID, insert the event, then all its time slots,
 * then all its venues, stopping at the first insert that fails (nothing is
 * rolled back), and return the event with its share URL.
 */
module CreateEvent {
  import opened Wrappers
  import opened Text
  import opened Seqs
  import opened EventTypes
  import opened Tables

  const CreateError := "Failed to create event"

  /** Which of the three inserts fail on this call. */
  datatype CreateFaults = CreateFaults(eventInsert: bool, timeSlotsInsert: bool, venuesInsert: bool)

  const NoCreateFaults := CreateFaults(false, false, false)

  /** `{ success: true, event, shareUrl }` or `{ success: false, error }`. */
  datatype CreateResult = Created(event: Event, shareUrl: string) | CreateFailed(error: string)

  datatype CreateOutcome = CreateOutcome(db: Db, result: CreateResult)

  predicate IsHexDigit(c: char) {
    ('0' <= c <= '9') || ('a' <= c <= 'f') || ('A' <= c <= 'F')
  }

  /** The 8-4-4-4-12 layout in which `uuidv4()` prints a UUID. */
  predicate CanonicalUuid(u: string) {
    && |u| == 36
    && u[8] == '-' && u[13] == '-' && u[18] == '-' && u[23] == '-'
    && AllHex(u[..8]) && AllHex(u[9..13]) && AllHex(u[14..18]) && AllHex(u[19..23]) && AllHex(u[24..])
  }

  predicate AllHex(s: string) {
    forall i :: 0 <= i < |s| ==> IsHexDigit(s[i])
  }

  /** `s.replace(/-/g, "")`. */
  function RemoveDashes(s: string): (r: string)
    ensures '-' !in r
    ensures |r| <= |s|
  {
    if s == [] then [] else (if s[0] == '-' then [] else [s[0]]) + RemoveDashes(s[1..])
  }

  /** `uuid.replace(/-/g, "").substring(0, 16)`. */
  function ShareToken(uuid: string): (t: string)
    ensures '-' !in t
    ensures |t| == if |RemoveDashes(uuid)| < 16 then |RemoveDashes(uuid)| else 16
    ensures t == RemoveDashes(uuid)[..|t|]
  {
    var s := RemoveDashes(uuid);
    if |s| <= 16 then s else s[..16]
  }

  /** Removing the dashes of a string that has its first dash at `k`. */
  lemma {:induction false} RemoveDashesAtFirst(s: string, k: nat)
    requires k < |s| && s[k] == '-' && '-' !in s[..k]
    ensures RemoveDashes(s) == s[..k] + RemoveDashes(s[k + 1..])
  {
    if k == 0 {
      RemoveDashesHead(s);
      assert s[..0] == [];
    } else {
      DashFreeTail(s, k);
      RemoveDashesAtFirst(s[1..], k - 1);
      RemoveDashesHead(s);
    }
  }

  /** Removing the dashes from a nonempty string, one character at a time. */
  lemma RemoveDashesHead(s: string)
    requires s != []
    ensures RemoveDashes(s) == (if s[0] == '-' then [] else [s[0]]) + RemoveDashes(s[1..])
  {
  }

  /** Dropping the first character of a string whose first dash is at `k > 0`. */
  lemma DashFreeTail(s: string, k: nat)
    requires 0 < k < |s| && s[k] == '-' && '-' !in s[..k]
    ensures s[0] != '-'
    ensures s[1..][k - 1] == '-' && '-' !in s[1..][..k - 1]
    ensures s[1..][k..] == s[k + 1..]
    ensures s[..k] == [s[0]] + s[1..][..k - 1]
  {
    assert s[0] == s[..k][0];
    var front, rest := s[..k], s[1..][..k - 1];
    forall i | 0 <= i < |rest| ensures rest[i] != '-' { assert rest[i] == front[i + 1]; }
  }

  lemma HexHasNoDash(g: string)
    requires AllHex(g)
    ensures '-' !in g
  {
  }

  /**
   * For a canonical UUID the token is its first 16 hex digits: the first
   * three groups and the first four digits of the fourth, with no dash.
   */
  lemma CanonicalShareToken(u: string)
    requires CanonicalUuid(u)
    ensures ShareToken(u) == u[..8] + u[9..13] + u[14..18]
    ensures |ShareToken(u)| == 16
    ensures forall i :: 0 <= i < 16 ==> IsHexDigit(ShareToken(u)[i])
  {
    CanonicalWithoutDashes(u);
    var t := ShareToken(u);
    assert t == u[..8] + u[9..13] + u[14..18];
    forall i | 0 <= i < 16 ensures IsHexDigit(t[i]) {
      if i < 8 { assert t[i] == u[..8][i]; } else if i < 12 { assert t[i] == u[9..13][i - 8]; } else { assert t[i] == u[14..18][i - 12]; }
    }
  }

  /** A hex group then a dash: the group is kept and the dash dropped. */
  lemma SkipHexGroup(s: string, k: nat)
    requires k < |s| && s[k] == '-' && AllHex(s[..k])
    ensures RemoveDashes(s) == s[..k] + RemoveDashes(s[k + 1..])
  {
    HexHasNoDash(s[..k]);
    RemoveDashesAtFirst(s, k);
  }

  /** The same, for the group of `u` that runs from `i` to the dash at `j`. */
  lemma SkipGroup(u: string, i: nat, j: nat)
    requires i <= j < |u| && u[j] == '-' && AllHex(u[i..j])
    ensures RemoveDashes(u[i..]) == u[i..j] + RemoveDashes(u[j + 1..])
  {
    var s := u[i..];
    var k := j - i;
    assert |s| == |u| - i && s[k] == u[j];
    assert s[..k] == u[i..j];
    assert s[k + 1..] == u[j + 1..];
    SkipHexGroup(s, k);
  }

  /** Dashes removed from the last two groups of a canonical UUID, then three, four, and all five. */
  lemma CanonicalTail3(u: string)
    requires CanonicalUuid(u)
    ensures RemoveDashes(u[19..]) == u[19..23] + u[24..]
  {
    SkipGroup(u, 19, 23);
    HexHasNoDash(u[24..]);
    NoDashesKept(u[24..]);
  }

  /** A string without dashes is left as it is. */
  lemma {:induction false} NoDashesKept(s: string)
    requires '-' !in s
    ensures RemoveDashes(s) == s
  {
    if s != [] {
      assert '-' !in s[1..];
      NoDashesKept(s[1..]);
      assert s == [s[0]] + s[1..];
    }
  }

  lemma CanonicalTail2(u: string)
    requires CanonicalUuid(u)
    ensures RemoveDashes(u[14..]) == u[14..18] + u[19..23] + u[24..]
  {
    SkipGroup(u, 14, 18);
    CanonicalTail3(u);
  }

  lemma CanonicalTail1(u: string)
    requires CanonicalUuid(u)
    ensures RemoveDashes(u[9..]) == u[9..13] + u[14..18] + u[19..23] + u[24..]
  {
    SkipGroup(u, 9, 13);
    CanonicalTail2(u);
  }

  lemma CanonicalWithoutDashes(u: string)
    requires CanonicalUuid(u)
    ensures RemoveDashes(u) == u[..8] + u[9..13] + u[14..18] + u[19..23] + u[24..]
  {
    assert u[0..] == u && u[0..8] == u[..8];
    SkipGroup(u, 0, 8);
    CanonicalTail1(u);
  }

  /** `${process.env.FRONTEND_URL}/event/${token}`; an unset variable prints as "undefined". */
  function ShareUrl(frontendUrl: Option<string>, token: string): string {
    frontendUrl.GetOr("undefined") + "/event/" + token
  }

  /** `time_slots.map(dateTime => ({ event_id, date_time: dateTime }))`, with ids generated from `firstId` on. */
  function SlotRows(eventId: Id, firstId: Id, times: seq<Timestamp>, now: Timestamp): (r: seq<TimeSlot>)
    ensures |r| == |times|
    ensures forall i :: 0 <= i < |r| ==>
      r[i].id == firstId + i && r[i].eventId == eventId && r[i].dateTime == times[i]
    decreases |times|
  {
    if times == [] then [] else [TimeSlot(firstId, eventId, times[0], now)] + SlotRows(eventId, firstId + 1, times[1..], now)
  }

  /** `venues.map(v => ({ event_id, name, address, description }))`: every other field of the input is dropped. */
  function VenueRows(eventId: Id, firstId: Id, venues: seq<VenueInput>, now: Timestamp): (r: seq<Venue>)
    ensures |r| == |venues|
    ensures forall i :: 0 <= i < |r| ==>
      && r[i].id == firstId + i && r[i].eventId == eventId
      && r[i].name == venues[i].name && r[i].address == venues[i].address && r[i].description == venues[i].description
    decreases |venues|
  {
    if venues == [] then []
    else [Venue(firstId, eventId, venues[0].name, venues[0].address, venues[0].description, now)]
         + VenueRows(eventId, firstId + 1, venues[1..], now)
  }

  /** The event row the first insert writes; the store gives it an id, `active` status and timestamps. */
  function NewEvent(id: Id, req: CreateEventRequest, token: string, now: Timestamp): Event {
    Event(id, req.title, req.description, req.creatorEmail, req.creatorName, token, Active, now, now)
  }

  /** `createEvent(request)` on store `db`, with `uuid` the value `uuidv4()` returned. */
  function CreateEventSpec(db: Db, req: CreateEventRequest, uuid: string, frontendUrl: Option<string>,
                           now: Timestamp, f: CreateFaults): (r: CreateOutcome)
    ensures r.db.participants == db.participants && r.db.timeSlotVotes == db.timeSlotVotes && r.db.venueVotes == db.venueVotes
    ensures r.result.Created? <==> !f.eventInsert && !f.timeSlotsInsert && !f.venuesInsert
    ensures r.result.CreateFailed? ==> r.result.error == CreateError
    ensures f.eventInsert ==> r.db == db
    ensures !f.eventInsert ==> r.db.events == db.events + [NewEvent(db.nextId, req, ShareToken(uuid), now)]
    ensures r.result.Created? ==>
      && r.result.event == NewEvent(db.nextId, req, ShareToken(uuid), now)
      && r.result.shareUrl == ShareUrl(frontendUrl, ShareToken(uuid))
    ensures !f.eventInsert && !f.timeSlotsInsert ==>
      r.db.timeSlots == db.timeSlots + SlotRows(db.nextId, db.nextId + 1, req.timeSlots, now)
    ensures r.result.Created? ==>
      r.db.venues == db.venues + VenueRows(db.nextId, db.nextId + 1 + |req.timeSlots|, req.venues, now)
  {
    var token := ShareToken(uuid);
    if f.eventInsert then CreateOutcome(db, CreateFailed(CreateError))
    else
      var ev := NewEvent(db.nextId, req, token, now);
      var db1 := AddEvent(db, ev);
      if f.timeSlotsInsert then CreateOutcome(db1, CreateFailed(CreateError))
      else
        var db2 := AddSlots(db1, ev.id, req.timeSlots, now);
        if f.venuesInsert then CreateOutcome(db2, CreateFailed(CreateError))
        else CreateOutcome(AddVenues(db2, ev.id, req.venues, now), Created(ev, ShareUrl(frontendUrl, token)))
  }

  /** The store after the event insert. */
  function AddEvent(db: Db, ev: Event): Db {
    db.(events := db.events + [ev], nextId := db.nextId + 1)
  }

  /** The store after the time-slot insert: one row per time, with fresh ids. */
  function AddSlots(db: Db, eventId: Id, times: seq<Timestamp>, now: Timestamp): Db {
    var rows := SlotRows(eventId, db.nextId, times, now);
    db.(timeSlots := db.timeSlots + rows, nextId := db.nextId + |rows|)
  }

  /** The store after the venue insert. */
  function AddVenues(db: Db, eventId: Id, input: seq<VenueInput>, now: Timestamp): Db {
    var rows := VenueRows(eventId, db.nextId, input, now);
    db.(venues := db.venues + rows, nextId := db.nextId + |rows|)
  }

  /**
   * No rollback: when a later insert fails, the rows written before it stay.
   * A failed time-slot insert leaves the event row alone without options; a
   * failed venue insert leaves the event and all its time slots.
   */
  lemma FailedInsertKeepsEarlierRows(db: Db, req: CreateEventRequest, uuid: string, frontendUrl: Option<string>, now: Timestamp, f: CreateFaults)
    requires !f.eventInsert && (f.timeSlotsInsert || f.venuesInsert)
    ensures var r := CreateEventSpec(db, req, uuid, frontendUrl, now, f);
      var eid := db.nextId;
      && r.result == CreateFailed(CreateError)
      && r.db.events == db.events + [NewEvent(eid, req, ShareToken(uuid), now)]
      && r.db.timeSlots == db.timeSlots + (if f.timeSlotsInsert then [] else SlotRows(eid, eid + 1, req.timeSlots, now))
      && r.db.venues == db.venues
  {
  }

  /** The store stays well formed: every new id is taken from the generator, which moves past it. */
  lemma PreservesWellFormed(db: Db, req: CreateEventRequest, uuid: string, frontendUrl: Option<string>, now: Timestamp, f: CreateFaults)
    requires WellFormed(db)
    ensures WellFormed(CreateEventSpec(db, req, uuid, frontendUrl, now, f).db)
  {
  }
}
