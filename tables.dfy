/**
 * The relational store as a value: the six tables the back end uses and the
 * store's id generator, with the filtered reads (`.eq(column, value)`) and
 * `.single()` the three operations are written with.
 */
module Tables {
  import opened Wrappers
  import opened EventTypes

  datatype Db = Db(
    events: seq<Event>,
    timeSlots: seq<TimeSlot>,
    venues: seq<Venue>,
    participants: seq<Participant>,
    timeSlotVotes: seq<VoteRow>,
    venueVotes: seq<VoteRow>,
    nextId: nat)

  const EmptyDb := Db([], [], [], [], [], [], 0)

  /** Every id the store generated, and every reference to a row, lies below the next id to be generated. */
  predicate WellFormed(db: Db) {
    && (forall i :: 0 <= i < |db.events| ==> db.events[i].id < db.nextId)
    && (forall i :: 0 <= i < |db.timeSlots| ==> db.timeSlots[i].id < db.nextId && db.timeSlots[i].eventId < db.nextId)
    && (forall i :: 0 <= i < |db.venues| ==> db.venues[i].id < db.nextId && db.venues[i].eventId < db.nextId)
    && (forall i :: 0 <= i < |db.participants| ==> db.participants[i].id < db.nextId && db.participants[i].eventId < db.nextId)
    && VotesBelow(db.timeSlotVotes, db.nextId)
    && VotesBelow(db.venueVotes, db.nextId)
  }

  /** Every vote row refers to a participant id below `n`. */
  predicate VotesBelow(votes: seq<VoteRow>, n: nat) {
    forall i :: 0 <= i < |votes| ==> votes[i].participantId < n
  }

  lemma VotesBelowKept(votes: seq<VoteRow>, pid: Id, ids: seq<Id>, n: nat, m: nat)
    requires VotesBelow(votes, n) && n <= m && pid < m
    ensures VotesBelow(WithoutParticipant(votes, pid), m)
    ensures VotesBelow(votes + VoteRows(pid, ids), m)
  {
    var w := WithoutParticipant(votes, pid);
    forall i | 0 <= i < |w| ensures w[i].participantId < m {
      assert w[i] in votes;
    }
  }

  /** `.single()`: the row when exactly one row matched, otherwise nothing (an error the caller sees). */
  function Single<T>(rows: seq<T>): (r: Option<T>)
    ensures r.Some? <==> |rows| == 1
    ensures r.Some? ==> r.value == rows[0]
  {
    if |rows| == 1 then Some(rows[0]) else None
  }

  /** `from("events").eq("share_token", token)`. */
  function EventsWithToken(events: seq<Event>, token: string): (r: seq<Event>)
    ensures forall e :: e in r <==> e in events && e.shareToken == token
    ensures |r| <= |events|
  {
    if events == [] then []
    else (if events[0].shareToken == token then [events[0]] else []) + EventsWithToken(events[1..], token)
  }

  /** `from("event_time_slots").eq("event_id", eventId)`, in table order. */
  function SlotsOf(slots: seq<TimeSlot>, eventId: Id): (r: seq<TimeSlot>)
    ensures forall t :: t in r <==> t in slots && t.eventId == eventId
    ensures |r| <= |slots|
  {
    if slots == [] then []
    else (if slots[0].eventId == eventId then [slots[0]] else []) + SlotsOf(slots[1..], eventId)
  }

  /** `from("event_venues").eq("event_id", eventId)`, in table order. */
  function VenuesOf(venues: seq<Venue>, eventId: Id): (r: seq<Venue>)
    ensures forall v :: v in r <==> v in venues && v.eventId == eventId
    ensures |r| <= |venues|
  {
    if venues == [] then []
    else (if venues[0].eventId == eventId then [venues[0]] else []) + VenuesOf(venues[1..], eventId)
  }

  /** `from("participants").eq("event_id", eventId)`, in table order. */
  function ParticipantsOf(ps: seq<Participant>, eventId: Id): (r: seq<Participant>)
    ensures forall p :: p in r <==> p in ps && p.eventId == eventId
    ensures |r| <= |ps|
  {
    if ps == [] then []
    else (if ps[0].eventId == eventId then [ps[0]] else []) + ParticipantsOf(ps[1..], eventId)
  }

  /** The option ids of the vote rows owned by participant `pid`, in table order. */
  function OptionIdsOf(votes: seq<VoteRow>, pid: Id): seq<Id> {
    if votes == [] then []
    else (if votes[0].participantId == pid then [votes[0].optionId] else []) + OptionIdsOf(votes[1..], pid)
  }

  /** `.delete().eq("participant_id", pid)`: the rows left behind. */
  function WithoutParticipant(votes: seq<VoteRow>, pid: Id): (r: seq<VoteRow>)
    ensures forall v :: v in r <==> v in votes && v.participantId != pid
  {
    if votes == [] then []
    else (if votes[0].participantId != pid then [votes[0]] else []) + WithoutParticipant(votes[1..], pid)
  }

  /** `ids.map(id => ({ participant_id: pid, ..._id: id }))`. */
  function VoteRows(pid: Id, ids: seq<Id>): (r: seq<VoteRow>)
    ensures |r| == |ids|
    ensures forall i :: 0 <= i < |ids| ==> r[i].participantId == pid && r[i].optionId == ids[i]
  {
    if ids == [] then [] else [VoteRow(pid, ids[0])] + VoteRows(pid, ids[1..])
  }

  lemma {:induction false} OptionIdsOfAppend(a: seq<VoteRow>, b: seq<VoteRow>, q: Id)
    ensures OptionIdsOf(a + b, q) == OptionIdsOf(a, q) + OptionIdsOf(b, q)
  {
    if a == [] {
      assert a + b == b;
    } else {
      var head := if a[0].participantId == q then [a[0].optionId] else [];
      assert (a + b)[0] == a[0] && (a + b)[1..] == a[1..] + b;
      assert OptionIdsOf(a + b, q) == head + OptionIdsOf(a[1..] + b, q);
      OptionIdsOfAppend(a[1..], b, q);
      assert OptionIdsOf(a, q) == head + OptionIdsOf(a[1..], q);
    }
  }

  /** The rows built for `pid` belong to `pid` alone and carry exactly `ids`. */
  lemma {:induction false} OptionIdsOfVoteRows(pid: Id, ids: seq<Id>, q: Id)
    ensures OptionIdsOf(VoteRows(pid, ids), q) == if q == pid then ids else []
  {
    if ids != [] {
      OptionIdsOfVoteRows(pid, ids[1..], q);
      assert VoteRows(pid, ids)[1..] == VoteRows(pid, ids[1..]);
      assert ids == [ids[0]] + ids[1..];
    }
  }

  /** Deleting `pid`'s rows empties `pid`'s votes and leaves every other participant's votes as they were. */
  lemma {:induction false} OptionIdsOfWithout(votes: seq<VoteRow>, pid: Id, q: Id)
    ensures OptionIdsOf(WithoutParticipant(votes, pid), q) == if q == pid then [] else OptionIdsOf(votes, q)
  {
    if votes != [] {
      var head := if votes[0].participantId != pid then [votes[0]] else [];
      OptionIdsOfAppend(head, WithoutParticipant(votes[1..], pid), q);
      OptionIdsOfWithout(votes[1..], pid, q);
    }
  }

  /** A participant id no row refers to owns no votes. */
  lemma {:induction false} OptionIdsOfFresh(votes: seq<VoteRow>, pid: Id)
    requires VotesBelow(votes, pid)
    ensures OptionIdsOf(votes, pid) == []
  {
    if votes != [] { OptionIdsOfFresh(votes[1..], pid); }
  }

  /** Filtering by event distributes over appended rows. */
  lemma {:induction false} SlotsOfAppend(a: seq<TimeSlot>, b: seq<TimeSlot>, e: Id)
    ensures SlotsOf(a + b, e) == SlotsOf(a, e) + SlotsOf(b, e)
  {
    if a == [] { assert a + b == b; } else { assert (a + b)[1..] == a[1..] + b; SlotsOfAppend(a[1..], b, e); }
  }

  lemma {:induction false} VenuesOfAppend(a: seq<Venue>, b: seq<Venue>, e: Id)
    ensures VenuesOf(a + b, e) == VenuesOf(a, e) + VenuesOf(b, e)
  {
    if a == [] { assert a + b == b; } else { assert (a + b)[1..] == a[1..] + b; VenuesOfAppend(a[1..], b, e); }
  }

  lemma {:induction false} ParticipantsOfAppend(a: seq<Participant>, b: seq<Participant>, e: Id)
    ensures ParticipantsOf(a + b, e) == ParticipantsOf(a, e) + ParticipantsOf(b, e)
  {
    if a == [] { assert a + b == b; } else { assert (a + b)[1..] == a[1..] + b; ParticipantsOfAppend(a[1..], b, e); }
  }

  /** When every row is of event `e`, filtering by `e` keeps them all and filtering by another event keeps none. */
  lemma {:induction false} SlotsOfUniform(s: seq<TimeSlot>, e: Id, q: Id)
    requires forall i :: 0 <= i < |s| ==> s[i].eventId == e
    ensures SlotsOf(s, q) == if q == e then s else []
  {
    if s != [] { SlotsOfUniform(s[1..], e, q); assert s == [s[0]] + s[1..]; }
  }

  lemma {:induction false} VenuesOfUniform(s: seq<Venue>, e: Id, q: Id)
    requires forall i :: 0 <= i < |s| ==> s[i].eventId == e
    ensures VenuesOf(s, q) == if q == e then s else []
  {
    if s != [] { VenuesOfUniform(s[1..], e, q); assert s == [s[0]] + s[1..]; }
  }

  /** Rows whose event id lies below `e` are all filtered out by `e`. */
  lemma {:induction false} SlotsOfOlder(s: seq<TimeSlot>, e: Id)
    requires forall i :: 0 <= i < |s| ==> s[i].eventId < e
    ensures SlotsOf(s, e) == []
  {
    if s != [] { SlotsOfOlder(s[1..], e); }
  }

  lemma {:induction false} VenuesOfOlder(s: seq<Venue>, e: Id)
    requires forall i :: 0 <= i < |s| ==> s[i].eventId < e
    ensures VenuesOf(s, e) == []
  {
    if s != [] { VenuesOfOlder(s[1..], e); }
  }

  lemma {:induction false} ParticipantsOfOlder(s: seq<Participant>, e: Id)
    requires forall i :: 0 <= i < |s| ==> s[i].eventId < e
    ensures ParticipantsOf(s, e) == []
  {
    if s != [] { ParticipantsOfOlder(s[1..], e); }
  }
}
