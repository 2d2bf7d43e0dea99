# eventify: a verified model of the voting back end and its UI helpers

eventify lets an organiser create an event with candidate time slots and
venues, share it by a short token, and collect votes from participants who
identify themselves by email or a browser session id. This project models in
Dafny:

- the three back-end operations against the database tables `events`,
  `event_time_slots`, `event_venues`, `participants`, `time_slot_votes` and
  `venue_votes`: `createEvent`, `submitVote` and `getEventByToken`;
- the record types of `types/event.ts`;
- the mock venue scorer, which gives a budget score, a vibe score and a summary sentence;
- the selection and UI-state helpers of the venue selector and the
  create-event page.

The store is a class (`EventStore.Store`) with one `seq` field per table and
an id counter. Each back-end method performs the source's store calls in the
source's order. Each is proved to leave the tables exactly as a pure
specification function of the old tables says (`CreateEvent.CreateEventSpec`,
`SubmitVote.SubmitVoteSpec`, `GetEvent.GetEventByToken`). The properties the
code promises are proved as lemmas about those functions.

A store call can fail, for example on a network error or a violated
constraint. This is modelled as an input: a record of one flag per store call
(`VoteFaults`, `CreateFaults`, `LoadFaults`). The model therefore covers every
failure pattern, including the ones the source ignores.

Inputs beyond the model's control are explicit parameters:
- the clock (`now`);
- the UUID returned by `uuidv4()`;
- the `FRONTEND_URL` environment variable;
- the page's "is this slot in the past" test;
- the page's conversion of the per-date grid into ISO instants.

File layout:
- `wrappers.dfy`, `text.dfy`, `seqs.dfy`: Option/Result, the JavaScript string
  operations used (`trim`, `toLowerCase`, `includes`, `join`, `repeat`,
  `String(n)`, `parseInt` on digit strings), and the array updaters
  (`filter`-out, toggle, remove-at, stable sort by a string key);
- `event_types.dfy`: the records of `types/event.ts`;
- `tables.dfy`: the store as a value (`Db`), the well-formedness invariant
  (every id and reference is below the id counter) and the table filters;
- `create_event.dfy`, `submit_vote.dfy`, `get_event.dfy`: the three operations
  as functions with their lemmas;
- `event_store.dfy`: the store class and its methods;
- `mock_scorer.dfy`: the budget and vibe scores, the vibe loop as a method, and
  the summary;
- `venue_selector.dfy`, `create_event_page.dfy`: the frontend helpers; the
  page's `useState` fields are a class whose methods are the handlers.

## Model

| member | source | states |
|---|---|---|
| CreateEvent.ShareToken | backend/api/events/create.ts:7 | the token has no '-', is the dash-free UUID cut to its first 16 characters, and is shorter only when the dash-free UUID is |
| CreateEvent.CanonicalShareToken | backend/api/events/create.ts:7 | for a canonical 8-4-4-4-12 UUID the token is the first three hex groups run together: 16 hex digits |
| CreateEvent.SlotRows | backend/api/events/create.ts:25-28 | one time-slot row per requested instant, in order, each with the event's id, that instant and a fresh id |
| CreateEvent.VenueRows | backend/api/events/create.ts:37-42 | one venue row per requested venue, in order, keeping only name, address and description |
| CreateEvent.CreateEventSpec | backend/api/events/create.ts:5-61 | success iff none of the three inserts fails; the error text; the event row carries the request's fields and the token; the slot rows are appended when the event and slot inserts succeed; the venue rows are appended on success, when the share URL built from the front-end URL and the token is returned; participants and votes are untouched |
| CreateEvent.FailedInsertKeepsEarlierRows | backend/api/events/create.ts:22-48 | no rollback: after a failed slot or venue insert, the event row (and, on a venue failure, the slot rows) stay written and the venue insert is not attempted after a slot failure |
| CreateEvent.PreservesWellFormed | backend/api/events/create.ts:10-48 | creation keeps every id and reference below the id counter |
| EventStore.Store.CreateEvent | backend/api/events/create.ts:5-61 | the three inserts in order with early exit leave exactly the tables and result of `CreateEventSpec`, and keep the store well formed |
| EventStore.Store.InsertEvent | backend/api/events/create.ts:10-20 | one event row appended, with the next id |
| EventStore.Store.InsertTimeSlots | backend/api/events/create.ts:30-32 | the slot rows appended with consecutive fresh ids |
| EventStore.Store.InsertVenues | backend/api/events/create.ts:44-46 | the venue rows appended with consecutive fresh ids |
| SubmitVote.KeyFor | backend/api/events/vote.ts:26-30 | the participant filter is the email when truthy, else the session id when truthy, else none |
| SubmitVote.Candidates | backend/api/events/vote.ts:21-30 | the participants selected are exactly the event's rows that match the filter |
| SubmitVote.EventOnlyCandidates | backend/api/events/vote.ts:21-24 | with no email and no session id, the query selects all of the event's participants |
| SubmitVote.EventFor | backend/api/events/vote.ts:11-17 | the event is found iff the lookup succeeds and exactly one event has the token |
| SubmitVote.Resolve | backend/api/events/vote.ts:11-62 | no event gives failure; when the event is found and the lookup succeeds with exactly one candidate, that candidate is reused as stored, and only then; otherwise a new participant with the request's name and email and the session id, or failure exactly when that insert fails |
| SubmitVote.InsertVotes | backend/api/events/vote.ts:64-90 | success iff no non-empty vote insert fails; nothing but the vote tables changes; the participant is returned |
| SubmitVote.SubmitVoteSpec | backend/api/events/vote.ts:4-103 | no event: failure and the store unchanged; every failure carries "Failed to submit vote"; events, slots and venues are never touched |
| SubmitVote.InsertVotesIds | backend/api/events/vote.ts:64-90 | per participant, the option ids after the inserts are the old ones plus the submitted lists for the voter only |
| SubmitVote.VotesReplaced | backend/api/events/vote.ts:37-90 | after a successful call whose deletes succeeded, the voter's time-slot and venue votes are exactly the submitted lists |
| SubmitVote.OtherVotesUntouched | backend/api/events/vote.ts:38-46 | the vote rows of every other participant are unchanged, whatever the outcome |
| SubmitVote.FailedDeleteAccumulates | backend/api/events/vote.ts:38-76 | an ignored failed delete keeps the old time-slot votes and the new ones are added after them |
| SubmitVote.SlotInsertFailureLeavesNoVotes | backend/api/events/vote.ts:37-89 | a failed time-slot insert aborts before the venue insert: the call fails and the voter is left with no votes at all |
| SubmitVote.EmptyListsSkipInsert | backend/api/events/vote.ts:65-79 | an empty id list is never inserted, so a fault of that insert cannot change the outcome |
| SubmitVote.SameOutcomeUnderInsertFaults | backend/api/events/vote.ts:65-90 | fault sets that differ only on the insert of an empty list give the same outcome |
| SubmitVote.MatchedParticipantUnchanged | backend/api/events/vote.ts:34-95 | a matched participant is returned as stored, its name is not rewritten, and no participant row is added |
| SubmitVote.NewParticipantAdded | backend/api/events/vote.ts:47-61 | without a unique match exactly one participant row is appended with the request's name and email and the session id, or the call fails if that insert fails |
| SubmitVote.AnonymousReusesSoleParticipant | backend/api/events/vote.ts:21-35 | a vote with neither email nor session id reuses the event's participant when it has exactly one |
| SubmitVote.OtherEventsIsolated | backend/api/events/vote.ts:21-58 | the participants of every other event are unchanged |
| SubmitVote.PreservesWellFormed | backend/api/events/vote.ts:34-90 | voting keeps every id and reference below the id counter |
| SubmitVote.ReconciledWellFormed | backend/api/events/vote.ts:34-62 | the delete or participant-insert step keeps the store well formed and the voter's id allocated |
| SubmitVote.InsertVotesWellFormed | backend/api/events/vote.ts:64-90 | the vote inserts keep the store well formed |
| SubmitVote.ResubmitByEmail | backend/api/events/vote.ts:21-90 | with no store faults and at most one participant of the event already holding the email, two submissions with that email both succeed on one participant row, which stays the only one with that email and ends with exactly the second submission's votes |
| EventStore.Store.ReconcileParticipant | backend/api/events/vote.ts:11-62 | the event lookup, participant query and then either the two deletes or the participant insert, as `Resolve` and the settled store say |
| EventStore.Store.InsertVoteRows | backend/api/events/vote.ts:64-90 | the two guarded inserts, as `InsertVotes` says |
| EventStore.Store.SubmitVote | backend/api/events/vote.ts:4-103 | the whole call leaves exactly the tables and result of `SubmitVoteSpec` and keeps the store well formed |
| GetEvent.SlotRefs | backend/api/events/get.ts:38 | the embedded time-slot vote records carry exactly the ids, in order |
| GetEvent.VenueRefs | backend/api/events/get.ts:39 | the embedded venue vote records carry exactly the ids, in order |
| GetEvent.AttachVotes | backend/api/events/get.ts:33-42 | each participant is paired with the option ids of its own vote rows |
| GetEvent.GetEventByToken | backend/api/events/get.ts:3-62 | failure, with "Event not found", iff a query fails or the token does not match exactly one event; on success the event row, its time slots sorted by date_time and its venues sorted by created_at (each a permutation of its rows), and its participants with their own votes |
| GetEvent.LoadedRowsBelongToEvent | backend/api/events/get.ts:15-28 | every loaded slot and venue is a stored row of this event |
| GetEvent.CreatedEventLoads | backend/api/events/get.ts:3-62 | create then load by the fresh token: the created event, exactly its new slots and venues, and no participants |
| GetEvent.CreatedStore | backend/api/events/get.ts:6-42 | right after creation the three queries select exactly the new event, its new slots, its new venues and no participants |
| GetEvent.CreatedEventFound | backend/api/events/get.ts:6-10 | right after creation the token finds exactly the new event |
| GetEvent.CreatedSlotsFound | backend/api/events/get.ts:15-19 | right after creation the slot query selects exactly the new slot rows |
| GetEvent.CreatedVenuesFound | backend/api/events/get.ts:24-28 | right after creation the venue query selects exactly the new venue rows |
| GetEvent.CreatedSlotsTable | backend/api/events/create.ts:25-32 | a fault-free creation appends exactly the slot rows to the slot table |
| GetEvent.CreatedVenuesTable | backend/api/events/create.ts:37-46 | a fault-free creation appends exactly the venue rows to the venue table |
| GetEvent.VoteVisibleInLoad | backend/api/events/get.ts:33-42 | after a successful vote whose deletes succeeded, the load lists the voter with exactly the submitted ids |
| GetEvent.EventsWithTokenAppend | backend/api/events/get.ts:6-10 | the token filter distributes over appended rows |
| GetEvent.NewTokenFound | backend/api/events/get.ts:6-10 | an appended event with an unused token is the only row the token finds |
| GetEvent.NewRowsOnly | backend/api/events/get.ts:15-42 | filtering by a just-issued event id selects exactly the rows just appended for it |
| GetEvent.NewSlotsOnly | backend/api/events/get.ts:15-19 | slots of older events plus rows of a new event filter to exactly those rows |
| GetEvent.NewVenuesOnly | backend/api/events/get.ts:24-28 | venues of older events plus rows of a new event filter to exactly those rows |
| EventStore.Store.GetEventByToken | backend/api/events/get.ts:3-62 | the four reads give `GetEventByToken` of the current tables and change nothing |
| MockScorer.ExpectedPrice | frontend/src/app/api/debug/mock/route.ts:37-44 | budget 1, mid-range 2, upscale 3, luxury 4, anything else or nothing 2 |
| MockScorer.BudgetScore | frontend/src/app/api/debug/mock/route.ts:31-48 | 5 for an absent or 0 level; in [1,10]; 10 exactly when the level is the expected one; 10 − 2·distance above the floor |
| MockScorer.BudgetScoreMonotone | frontend/src/app/api/debug/mock/route.ts:45-47 | a level closer to the expected one never scores lower, and scores strictly higher while above the floor |
| MockScorer.CountMatches | frontend/src/app/api/debug/mock/route.ts:57-64 | at most one match per vibe; zero iff no vibe matches; all iff every vibe matches |
| MockScorer.VibeScore | frontend/src/app/api/debug/mock/route.ts:50-67 | 5 for missing types or vibes or no vibes; in [5,10]; odd below the cap of 10 |
| MockScorer.CalculateVibeScore | frontend/src/app/api/debug/mock/route.ts:50-67 | the counting loop returns `VibeScore` |
| MockScorer.CountMatchesSnoc | frontend/src/app/api/debug/mock/route.ts:57-64 | one more vibe adds one match exactly when it matches |
| MockScorer.MoreVibesNeverLower | frontend/src/app/api/debug/mock/route.ts:57-66 | wanting one more vibe never lowers the score, and a matching one raises it below the cap |
| MockScorer.VibeNamingATypeMatches | frontend/src/app/api/debug/mock/route.ts:54-59 | a vibe equal up to letter case to one of the venue's types matches |
| MockScorer.CasualMatchesRestaurant | frontend/src/app/api/debug/mock/route.ts:60 | a venue typed "restaurant" matches the vibe "casual" |
| MockScorer.SummaryTier | frontend/src/app/api/debug/mock/route.ts:75-91 | the tier from the real-valued average: excellent iff b+v ≥ 16, decent iff 12 ≤ b+v < 16, poor iff b+v < 12 |
| MockScorer.FirstVibeOrDining | frontend/src/app/api/debug/mock/route.ts:87 | the first vibe when present and non-empty, else "dining" |
| MockScorer.MockSummary | frontend/src/app/api/debug/mock/route.ts:69-92 | the summary opens with the venue name, and the three sentences are distinguishable: reading the tier back off the summary gives the tier that chose it |
| MockScorer.TierOfLead | frontend/src/app/api/debug/mock/route.ts:78-90 | a summary opening with one tier's words after the venue name reads back as that tier |
| VenueSelector.VenueDescription | frontend/src/components/VenueSelector.tsx:279-284 | the AI summary when AI is on and there is one; otherwise "Rating: r/5 ", followed by "• Price Level: p/4" exactly when the price level is truthy |
| VenueSelector.VenueFromPlace | frontend/src/components/VenueSelector.tsx:276-289 | the added venue carries the place's name, vicinity as address, place id, price level and AI analysis |
| VenueSelector.WithoutPlace | frontend/src/components/VenueSelector.tsx:297 | exactly the entries with another place id remain |
| VenueSelector.WithoutPlaceConcat | frontend/src/components/VenueSelector.tsx:297 | the filter distributes over concatenation, so kept entries keep their order and multiplicity |
| VenueSelector.WithoutPlaceSingle | frontend/src/components/VenueSelector.tsx:297 | one entry is kept exactly when its place id differs |
| VenueSelector.ToggleVenueSelection | frontend/src/components/VenueSelector.tsx:275-302 | a selected place loses every entry with its id; an unselected one is appended once; selected afterwards iff not before |
| VenueSelector.ToggleVenueTwice | frontend/src/components/VenueSelector.tsx:291-301 | selecting an unselected place and deselecting it restores the selection |
| VenueSelector.WithoutPlaceAppend | frontend/src/components/VenueSelector.tsx:297-300 | removing the place just appended restores a selection that lacked it |
| VenueSelector.PriceLabel | frontend/src/components/VenueSelector.tsx:304-307 | "Price not available" for an absent or 0 level; for 1..4, that many '$' then '○' up to 4 characters; a RangeError outside 0..4 |
| VenueSelector.TogglePreferenceItem | frontend/src/components/VenueSelector.tsx:309-321 | a list field drops every copy of a present item or appends an absent one; a non-list field becomes the one-item list; other fields unchanged |
| VenueSelector.TogglePreferenceTwice | frontend/src/components/VenueSelector.tsx:309-321 | toggling an absent item twice restores the preferences |
| VenueSelector.FindPlace | frontend/src/components/VenueSelector.tsx:333 | the first place with the id, or none when no place has it |
| VenueSelector.AutoSwipe | frontend/src/components/VenueSelector.tsx:329-373 | only for a hovered place with more than one photo, its index becomes (i+1) mod n, a missing index read as 0; every other entry unchanged |
| VenueSelector.PrevPhoto | frontend/src/components/VenueSelector.tsx:1099-1105 | 0 goes to n−1, i to i−1; stays in [0,n) and equals (i+n−1) mod n |
| VenueSelector.NextPhoto | frontend/src/components/VenueSelector.tsx:1126-1132 | n−1 goes to 0, i to i+1; stays in [0,n) and equals (i+1) mod n |
| VenueSelector.PrevNextInverse | frontend/src/components/VenueSelector.tsx:1099-1132 | next undoes previous and previous undoes next |
| VenueSelector.ClickPhotoButton | frontend/src/components/VenueSelector.tsx:1097-1133 | the next button sets the place's index to `NextPhoto` of the current one and the back button to `PrevPhoto`, a missing index read as 0; only that entry changes; the index stays in range |
| VenueSelector.BackUndoesNext | frontend/src/components/VenueSelector.tsx:1097-1133 | a click on next then back, or back then next, restores the place's photo index |
| VenueSelector.NextButtonAgreesWithAutoSwipe | frontend/src/components/VenueSelector.tsx:1124-1133 | the next button and an auto-swipe step (lines 346-354) move the same place's index alike |
| CreateEventPage.ToggleTimeSlotForDate | frontend/src/app/createEvent/page.tsx:127-156 | a past slot changes nothing; otherwise the time is chosen for its date iff it was not, appended when new, other times and dates unchanged |
| CreateEventPage.ToggleForDateTwice | frontend/src/app/createEvent/page.tsx:133-146 | choosing a free hour twice restores the grid |
| CreateEventPage.FutureSlots | frontend/src/app/createEvent/page.tsx:160-162 | exactly the offered hours that are not past |
| CreateEventPage.FutureSlotsConcat | frontend/src/app/createEvent/page.tsx:160-162 | the filter distributes over concatenation, so kept hours keep their order and multiplicity |
| CreateEventPage.FutureSlotsSingle | frontend/src/app/createEvent/page.tsx:160-162 | one hour is kept exactly when it is not past |
| CreateEventPage.SelectAllTimeSlotsForDate | frontend/src/app/createEvent/page.tsx:159-179 | the date gets exactly the offered hours not yet past; other dates unchanged |
| CreateEventPage.ClearAllTimeSlotsForDate | frontend/src/app/createEvent/page.tsx:181-198 | the date holds no hours; other dates unchanged |
| CreateEventPage.SelectAllTimeSlots | frontend/src/app/createEvent/page.tsx:239-258 | the grid holds exactly the range's dates, each with exactly its hours not yet past |
| CreateEventPage.MouseDownDrag | frontend/src/app/createEvent/page.tsx:200-210 | a past slot changes nothing; otherwise dragging starts, deselecting iff the slot was chosen |
| CreateEventPage.MouseEnterDaily | frontend/src/app/createEvent/page.tsx:212-221 | select mode only adds and deselect mode only removes; while dragging over a slot that is not past, the slot ends chosen iff the mode is select; other dates unchanged |
| CreateEventPage.ToggleTimeSlot | frontend/src/app/createEvent/page.tsx:227-237 | the time is chosen iff it was not; every other time keeps its count; a new time is appended |
| CreateEventPage.RemoveTimeSlot | frontend/src/app/createEvent/page.tsx:270-275 | exactly the instant at that index is dropped and the rest keep their order; an index out of range changes nothing; other fields unchanged |
| CreateEventPage.NextTab | frontend/src/app/createEvent/page.tsx:340-346 | one tab on, the last tab stays |
| CreateEventPage.PrevTab | frontend/src/app/createEvent/page.tsx:348-354 | one tab back, the first tab stays |
| CreateEventPage.TabsInverse | frontend/src/app/createEvent/page.tsx:340-354 | back undoes on except from the last tab, and on undoes back except from the first |
| CreateEventPage.NextTabReachesVenues | frontend/src/app/createEvent/page.tsx:340-346 | two steps on from any tab reach the venues tab |
| CreateEventPage.CanProceedFromTab | frontend/src/app/createEvent/page.tsx:322-333 | details needs a title that is not all blanks; timeslots needs an instant; venues needs a venue; any other tab is refused |
| CreateEventPage.BlankTitleBlocksDetails | frontend/src/app/createEvent/page.tsx:325-326 | a blank title never passes the first tab |
| CreateEventPage.SubmitDescription | frontend/src/app/createEvent/page.tsx:290-293 | "NIL" for a missing or blank description, otherwise the trimmed description, never empty |
| CreateEventPage.SubmitData | frontend/src/app/createEvent/page.tsx:289-293 | the posted body is the form with only the description replaced, by `SubmitDescription` of the form's description, which is never empty |
| CreateEventPage.HourPart | frontend/src/app/createEvent/page.tsx:675 | the text before the first colon, or all of it |
| CreateEventPage.DisplayHour | frontend/src/app/createEvent/page.tsx:676-680 | 0 shows as "12", an hour above 12 as the decimal of that hour less 12, any hour from 1 to 12 exactly as written (so "09" stays "09") |
| CreateEventPage.DisplayTime | frontend/src/app/createEvent/page.tsx:675-682 | the label is the displayed hour, ":00 ", then "PM" iff the hour is at least 12 and "AM" iff it is below 12 |
| CreateEventPage.DisplayTimeIsTwelveHourClock | frontend/src/app/createEvent/page.tsx:675-682 | for hours 0..23 the label's hour lies in 1..12 and, with its suffix, gives the hour back |
| CreateEventPage.ClockRoundTrip | frontend/src/app/createEvent/page.tsx:676-681 | the 12-hour reading of an hour from 0 to 23 lies in 1..12 and, with the PM flag, gives the hour back |
| CreateEventPage.AvailableSlotsHaveHours | frontend/src/app/createEvent/page.tsx:33-58 | every offered slot has a two-digit hour from 0 to 23 |
| CreateEventPage.Page.constructor | frontend/src/app/createEvent/page.tsx:11-30 | the initial tab, empty form and grid, and "select" drag mode |
| CreateEventPage.Page.SetDaily | frontend/src/app/createEvent/page.tsx:147-154 | the grid is replaced and the form's instants become the conversion of the new grid; nothing else changes |
| CreateEventPage.Page.ToggleSlotForDate | frontend/src/app/createEvent/page.tsx:127-156 | the grid as `ToggleTimeSlotForDate` says and the form's instants re-derived from it |
| CreateEventPage.Page.SelectAllForDate | frontend/src/app/createEvent/page.tsx:159-179 | the grid as `SelectAllTimeSlotsForDate` says, instants re-derived |
| CreateEventPage.Page.ClearAllForDate | frontend/src/app/createEvent/page.tsx:181-198 | the grid as `ClearAllTimeSlotsForDate` says, instants re-derived |
| CreateEventPage.Page.SelectAll | frontend/src/app/createEvent/page.tsx:239-258 | the grid as `SelectAllTimeSlots` says, instants re-derived |
| CreateEventPage.Page.ClearAll | frontend/src/app/createEvent/page.tsx:260-268 | grid and instants emptied, nothing else changed |
| CreateEventPage.Page.MouseDown | frontend/src/app/createEvent/page.tsx:200-210 | drag state and grid as `MouseDownDrag` and the toggle say |
| CreateEventPage.Page.MouseEnter | frontend/src/app/createEvent/page.tsx:212-221 | the grid as `MouseEnterDaily` says, instants re-derived when it changed |
| CreateEventPage.Page.MouseUp | frontend/src/app/createEvent/page.tsx:223-225 | dragging stops, nothing else changes |
| CreateEventPage.Page.ToggleSelectedSlot | frontend/src/app/createEvent/page.tsx:227-237 | the chosen list as `ToggleTimeSlot` says |
| CreateEventPage.Page.RemoveSlot | frontend/src/app/createEvent/page.tsx:270-275 | the form as `RemoveTimeSlot` says |
| CreateEventPage.Page.VenuesSelected | frontend/src/app/createEvent/page.tsx:277-282 | only the form's venues are replaced |
| CreateEventPage.Page.GoNext | frontend/src/app/createEvent/page.tsx:340-346 | the tab as `NextTab` says |
| CreateEventPage.Page.GoPrev | frontend/src/app/createEvent/page.tsx:348-354 | the tab as `PrevTab` says |

## Left out

- Network I/O and the database client. The store is modelled as tables with
  filter, `.single()` (exactly one row), insert, delete and order. Row ids
  come from one counter and are natural numbers rather than UUID strings. The
  timestamps `created_at`/`updated_at` take the `now` parameter.
  Foreign-key checks surface only as fault flags.
- Concurrency. Two submissions racing on one identity are not modelled, and
  neither are transactions (the source has none).
- Ordering by `date_time` and `created_at` compares the timestamp strings
  lexicographically. For ISO-8601 strings in one format this is the
  database's instant order. Rows with equal keys come back in the order the
  model's insertion sort gives them.
- A load lists the event's participants, and each participant's embedded vote
  lists, in table order. The source asks for no order, so the database may
  return another one.
- The source adds no validation, and the model follows the code:
  - there is no deduplication of submitted ids;
  - there is no check that an option belongs to the event;
  - `createEvent` sends its time-slot insert and its venue insert even for an
    empty list.
- The participant lookup's own error is ignored by the source; the model
  follows it. A failed lookup leads to a new participant, and an anonymous vote
  reuses the event's only participant.
- Tallying and ranking of votes: no such code exists in the modelled files.
- `generateMockAnalysis`: random scores and float ratings.
- The `rating` field of a selected venue and the formatting of the rating
  number, which becomes the opaque `ratingText` string.
- MockScorer.ExpectedPrice: a budget naming an `Object.prototype` member
  (such as "toString") gives NaN in JavaScript. The model treats it as any
  other unknown budget.
- `toLowerCase` is modelled on ASCII letters only. There is no Unicode case
  mapping.
- Clock- and timezone-dependent page helpers, which are parameters of the
  handlers here:
  - `getDatesInRange`: the handler takes its dates;
  - `isTimeSlotInPast`: `past` and `isPast`;
  - `convertDailyTimeSlotsToISO`: `toIso`.
- The page's `loading` flag, date range and free-text time field; JSX
  rendering, `alert`, `console`, `fetch`, routing and `setInterval` timing.
  The auto-swipe interval is modelled as one step per tick.
- CreateEventPage.DisplayTime: `parseInt` is modelled only on hour parts made
  of one or more digits. NaN for other text is not modelled. Every offered
  slot meets this condition (`AvailableSlotsHaveHours`).
