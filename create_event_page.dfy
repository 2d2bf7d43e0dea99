/**
 * The state of the create-event page (frontend/src/app/createEvent/page.tsx):
 * the active tab, the form, the per-date grid of selected hours and the drag
 * selection over it. The updaters are functions on values; the page object
 * holds the `useState` fields and each handler reassigns them.
 *
 * Whether a slot lies in the past, and the conversion of the grid into ISO
 * instants, depend on the clock; they are parameters here (`past`,
 * `isPast`, `toIso`) with whatever values the clock gives them.
 */
module CreateEventPage {
  import opened Text
  import opened Seqs
  import opened Wrappers
  import opened EventTypes

  /** The hours offered for every date, in the order the grid shows them. */
  const AvailableTimeSlots: seq<string> := [
    "01:00", "02:00", "03:00", "04:00", "05:00", "06:00", "07:00", "08:00",
    "09:00", "10:00", "11:00", "12:00", "13:00", "14:00", "15:00", "16:00",
    "17:00", "18:00", "19:00", "20:00", "21:00", "22:00", "23:00", "00:00"]

  /** `dailyTimeSlots`: the hours chosen for each date, keyed by "YYYY-MM-DD". */
  type Daily = map<string, seq<string>>

  /** `dailyTimeSlots[date] || []`. */
  function SlotsFor(daily: Daily, date: string): seq<string> {
    if date in daily then daily[date] else []
  }

  /** `isTimeSlotSelected(date, time)`. */
  predicate IsTimeSlotSelected(daily: Daily, date: string, time: string) {
    time in SlotsFor(daily, date)
  }

  /**
   * `toggleTimeSlotForDate(date, time)`: nothing for a past slot; otherwise
   * the time is dropped from its date if chosen and appended if not.
   */
  function ToggleTimeSlotForDate(daily: Daily, date: string, time: string, past: bool): (r: Daily)
    ensures past ==> r == daily
    ensures !past ==>
      && r.Keys == daily.Keys + {date}
      && (forall d :: d in daily && d != date ==> r[d] == daily[d])
      && (IsTimeSlotSelected(r, date, time) <==> !IsTimeSlotSelected(daily, date, time))
      && multiset(r[date])[time := 0] == multiset(SlotsFor(daily, date))[time := 0]
      && (!IsTimeSlotSelected(daily, date, time) ==> r[date] == SlotsFor(daily, date) + [time])
  {
    if past then daily else daily[date := Toggle(SlotsFor(daily, date), time)]
  }

  /** Choosing a free hour and then choosing it again gives the grid back. */
  lemma ToggleForDateTwice(daily: Daily, date: string, time: string)
    requires date in daily && time !in daily[date]
    ensures ToggleTimeSlotForDate(ToggleTimeSlotForDate(daily, date, time, false), date, time, false) == daily
  {
    ToggleTwiceAbsent(daily[date], time);
    var r := ToggleTimeSlotForDate(ToggleTimeSlotForDate(daily, date, time, false), date, time, false);
    assert r.Keys == daily.Keys;
  }

  /** `slots.filter(time => !isPast(time))`. */
  function FutureSlots(slots: seq<string>, isPast: string -> bool): (r: seq<string>)
    ensures forall t :: t in r <==> t in slots && !isPast(t)
    ensures |r| <= |slots|
  {
    if slots == [] then []
    else
      var rest := FutureSlots(slots[1..], isPast);
      assert slots == [slots[0]] + slots[1..];
      if isPast(slots[0]) then rest else [slots[0]] + rest
  }

  /** The filter keeps order and multiplicity: it distributes over concatenation. */
  lemma {:induction false} FutureSlotsConcat(a: seq<string>, b: seq<string>, isPast: string -> bool)
    ensures FutureSlots(a + b, isPast) == FutureSlots(a, isPast) + FutureSlots(b, isPast)
  {
    if a == [] {
      assert a + b == b;
    } else {
      assert (a + b)[1..] == a[1..] + b;
      FutureSlotsConcat(a[1..], b, isPast);
    }
  }

  /** On one hour the filter keeps it exactly when it is not past. */
  lemma FutureSlotsSingle(t: string, isPast: string -> bool)
    ensures FutureSlots([t], isPast) == if isPast(t) then [] else [t]
  {
    assert [t][1..] == [];
  }

  /** `selectAllTimeSlotsForDate(date)`: the date gets every offered hour not yet past. */
  function SelectAllTimeSlotsForDate(daily: Daily, date: string, isPast: string -> bool): (r: Daily)
    ensures r.Keys == daily.Keys + {date}
    ensures forall d :: d in daily && d != date ==> r[d] == daily[d]
    ensures forall t :: IsTimeSlotSelected(r, date, t) <==> t in AvailableTimeSlots && !isPast(t)
  {
    daily[date := FutureSlots(AvailableTimeSlots, isPast)]
  }

  /** `clearAllTimeSlotsForDate(date)`. */
  function ClearAllTimeSlotsForDate(daily: Daily, date: string): (r: Daily)
    ensures r.Keys == daily.Keys + {date}
    ensures forall d :: d in daily && d != date ==> r[d] == daily[d]
    ensures r[date] == [] && forall t :: !IsTimeSlotSelected(r, date, t)
  {
    daily[date := []]
  }

  /** `selectAllTimeSlots()` over the dates of the chosen range: the grid is rebuilt from nothing. */
  function SelectAllTimeSlots(dates: seq<string>, isPast: (string, string) -> bool): (r: Daily)
    ensures r.Keys == set d | d in dates
    ensures forall d, t :: d in dates ==> (IsTimeSlotSelected(r, d, t) <==> t in AvailableTimeSlots && !isPast(d, t))
  {
    map d | d in dates :: FutureSlots(AvailableTimeSlots, t => isPast(d, t))
  }

  datatype DragMode = Select | Deselect

  /** `isDragging` and `dragMode`. */
  datatype Drag = Drag(isDragging: bool, mode: DragMode)

  /**
   * `handleMouseDown(date, time)`: the mode the drag starts in. A past slot
   * leaves the drag as it was; otherwise dragging starts, in "deselect" mode
   * when the slot was chosen and "select" mode when it was not.
   */
  function MouseDownDrag(drag: Drag, daily: Daily, date: string, time: string, past: bool): (r: Drag)
    ensures past ==> r == drag
    ensures !past ==> r.isDragging && (r.mode == Deselect <==> IsTimeSlotSelected(daily, date, time))
  {
    if past then drag else Drag(true, if IsTimeSlotSelected(daily, date, time) then Deselect else Select)
  }

  /**
   * `handleMouseEnter(date, time)`: while dragging, a slot entered in select
   * mode is chosen and one entered in deselect mode is dropped. Select mode
   * only ever adds and deselect mode only ever removes.
   */
  function MouseEnterDaily(drag: Drag, daily: Daily, date: string, time: string, past: bool): (r: Daily)
    ensures !drag.isDragging || past ==> r == daily
    ensures drag.mode == Select ==> forall d, t :: IsTimeSlotSelected(daily, d, t) ==> IsTimeSlotSelected(r, d, t)
    ensures drag.mode == Deselect ==> forall d, t :: IsTimeSlotSelected(r, d, t) ==> IsTimeSlotSelected(daily, d, t)
    ensures drag.isDragging && !past ==> (IsTimeSlotSelected(r, date, time) <==> drag.mode == Select)
    ensures forall d :: d in daily && d != date ==> d in r && r[d] == daily[d]
  {
    if !drag.isDragging || past then daily
    else
      var selected := IsTimeSlotSelected(daily, date, time);
      if (drag.mode == Select && !selected) || (drag.mode == Deselect && selected) then
        var r := ToggleTimeSlotForDate(daily, date, time, false);
        assert forall t :: t != time ==> multiset(r[date])[t] == multiset(SlotsFor(daily, date))[t] by {
          forall t | t != time ensures multiset(r[date])[t] == multiset(SlotsFor(daily, date))[t] {
            assert multiset(r[date])[t] == multiset(r[date])[time := 0][t];
          }
        }
        assert forall t :: t != time ==> (t in r[date] <==> t in SlotsFor(daily, date)) by {
          forall t | t != time ensures t in r[date] <==> t in SlotsFor(daily, date) {
            assert t in r[date] <==> multiset(r[date])[t] > 0;
            assert t in SlotsFor(daily, date) <==> multiset(SlotsFor(daily, date))[t] > 0;
          }
        }
        r
      else
        assert drag.mode.Select? || drag.mode.Deselect?;
        assert IsTimeSlotSelected(daily, date, time) == selected;
        daily
  }

  /** `toggleTimeSlot(time)` on the list of chosen times. */
  function ToggleTimeSlot(selection: seq<string>, time: string): (r: seq<string>)
    ensures time in r <==> time !in selection
    ensures forall t :: t != time ==> multiset(r)[t] == multiset(selection)[t]
    ensures time !in selection ==> r == selection + [time]
  {
    var r := Toggle(selection, time);
    assert forall t :: t != time ==> multiset(r)[t] == multiset(selection)[t] by {
      forall t | t != time ensures multiset(r)[t] == multiset(selection)[t] {
        assert multiset(r)[t] == multiset(r)[time := 0][t];
      }
    }
    r
  }

  /** `removeTimeSlot(index)`: drops the instant at `index` and keeps the others in order. */
  function RemoveTimeSlot(form: CreateEventRequest, index: int): (r: CreateEventRequest)
    ensures r == form.(timeSlots := r.timeSlots)
    ensures 0 <= index < |form.timeSlots| ==>
      && |r.timeSlots| == |form.timeSlots| - 1
      && (forall j :: 0 <= j < index ==> r.timeSlots[j] == form.timeSlots[j])
      && (forall j :: index <= j < |r.timeSlots| ==> r.timeSlots[j] == form.timeSlots[j + 1])
    ensures !(0 <= index < |form.timeSlots|) ==> r == form
  {
    form.(timeSlots := RemoveAt(form.timeSlots, index))
  }

  /** The three tabs of the page, in order. */
  datatype Tab = Details | TimeSlots | Venues

  function TabIndex(t: Tab): nat {
    match t
    case Details => 0
    case TimeSlots => 1
    case Venues => 2
  }

  /** The name `activeTab` holds. */
  function TabName(t: Tab): string {
    match t
    case Details => "details"
    case TimeSlots => "timeslots"
    case Venues => "venues"
  }

  /** `nextTab()`: one tab on; the last tab stays. */
  function NextTab(t: Tab): (r: Tab)
    ensures TabIndex(r) == if TabIndex(t) < 2 then TabIndex(t) + 1 else 2
  {
    match t
    case Details => TimeSlots
    case TimeSlots => Venues
    case Venues => Venues
  }

  /** `prevTab()`: one tab back; the first tab stays. */
  function PrevTab(t: Tab): (r: Tab)
    ensures TabIndex(r) == if TabIndex(t) > 0 then TabIndex(t) - 1 else 0
  {
    match t
    case Details => Details
    case TimeSlots => Details
    case Venues => TimeSlots
  }

  /** Going back undoes going on, except from the last tab, and the reverse. */
  lemma TabsInverse(t: Tab)
    ensures t != Venues ==> PrevTab(NextTab(t)) == t
    ensures t != Details ==> NextTab(PrevTab(t)) == t
  {
  }

  /** Two steps on from the first tab reach the last, and further steps stay there. */
  lemma NextTabReachesVenues(t: Tab)
    ensures NextTab(NextTab(t)) == Venues
  {
  }

  /** `canProceedFromTab(tab)`. */
  function CanProceedFromTab(tab: string, form: CreateEventRequest): (r: bool)
    ensures tab == "details" ==> (r <==> !AllWhitespace(form.title))
    ensures tab == "timeslots" ==> (r <==> |form.timeSlots| > 0)
    ensures tab == "venues" ==> (r <==> |form.venues| > 0)
    ensures tab !in {"details", "timeslots", "venues"} ==> !r
  {
    if tab == "details" then Trim(form.title) != ""
    else if tab == "timeslots" then |form.timeSlots| > 0
    else if tab == "venues" then |form.venues| > 0
    else false
  }

  /** A title of only blanks never lets the user past the first tab. */
  lemma BlankTitleBlocksDetails(form: CreateEventRequest)
    requires AllWhitespace(form.title)
    ensures !CanProceedFromTab(TabName(Details), form)
  {
  }

  /** `formData.description?.trim() || "NIL"`. */
  function SubmitDescription(description: Option<string>): (r: string)
    ensures r != []
    ensures description.None? || AllWhitespace(description.value) ==> r == "NIL"
    ensures description.Some? && !AllWhitespace(description.value) ==>
      && r == Trim(description.value)
      && !IsJsWhitespace(r[0]) && !IsJsWhitespace(r[|r| - 1])
  {
    if description.None? then "NIL"
    else
      var t := Trim(description.value);
      if t == "" then "NIL" else t
  }

  /** The body `handleSubmit` posts: the form with the description defaulted. */
  function SubmitData(form: CreateEventRequest): (r: CreateEventRequest)
    ensures r == form.(description := r.description)
    ensures r.description == Some(SubmitDescription(form.description))
    ensures r.description.Some? && r.description.value != []
  {
    form.(description := Some(SubmitDescription(form.description)))
  }

  /** `time.split(":")[0]`: the text before the first colon, or all of it. */
  function HourPart(time: string): (h: string)
    ensures ':' !in h
    ensures |h| <= |time| && h == time[..|h|]
    ensures |h| < |time| ==> time[|h|] == ':'
  {
    if time == [] || time[0] == ':' then [] else [time[0]] + HourPart(time[1..])
  }

  /** An hour part of at least one digit, on which `parseInt` gives an integer and not NaN. */
  predicate NumericHour(hours: string) {
    hours != [] && IsDigits(hours)
  }

  /** The hour as the grid prints it: 0 as 12, afternoon hours less 12, the rest as written. */
  function DisplayHour(hours: string): (r: string)
    requires NumericHour(hours)
    ensures IsDigits(r)
    ensures ParseDigits(r) == if ParseDigits(hours) == 0 then 12
                              else if ParseDigits(hours) > 12 then ParseDigits(hours) - 12
                              else ParseDigits(hours)
    ensures ParseDigits(hours) == 0 ==> r == "12"
    ensures 0 < ParseDigits(hours) <= 12 ==> r == hours
    ensures ParseDigits(hours) > 12 ==> r == NatToString(ParseDigits(hours) - 12)
  {
    var h := ParseDigits(hours);
    if h == 0 then (assert "12"[..1] == "1"; "12")
    else if h > 12 then (ParseNatToString(h - 12); NatToString(h - 12))
    else hours
  }

  /** "AM" or "PM" as the grid prints it. */
  function Meridiem(h: nat): string {
    if h >= 12 then "PM" else "AM"
  }

  /** The label of an hour button, such as "1:00 PM". */
  function DisplayTime(time: string): (r: string)
    requires NumericHour(HourPart(time))
    ensures |r| >= 6 && r[|r| - 6..|r| - 2] == ":00 "
    ensures r[..|r| - 6] == DisplayHour(HourPart(time))
    ensures r[|r| - 2..] == "PM" <==> ParseDigits(HourPart(time)) >= 12
    ensures r[|r| - 2..] == "AM" <==> ParseDigits(HourPart(time)) < 12
  {
    var d := DisplayHour(HourPart(time));
    var m := Meridiem(ParseDigits(HourPart(time)));
    var r := d + ":00 " + m;
    assert r[|r| - 6..|r| - 2] == ":00 ";
    assert r[..|r| - 6] == d;
    assert r[|r| - 2..] == m;
    r
  }

  /** Reading a 12-hour label back as a 24-hour hour. */
  function To24Hour(clockHour: nat, pm: bool): nat {
    clockHour % 12 + if pm then 12 else 0
  }

  /**
   * On hours 0 to 23 the label is a 12-hour clock reading: its hour is
   * between 1 and 12, and together with the suffix it gives back the hour.
   */
  lemma DisplayTimeIsTwelveHourClock(time: string)
    requires NumericHour(HourPart(time)) && ParseDigits(HourPart(time)) <= 23
    ensures var r := DisplayTime(time);
      var clock := ParseDigits(DisplayHour(HourPart(time)));
      && 1 <= clock <= 12
      && To24Hour(clock, r[|r| - 2..] == "PM") == ParseDigits(HourPart(time))
  {
    var h := ParseDigits(HourPart(time));
    var clock := ParseDigits(DisplayHour(HourPart(time)));
    var pm := DisplayTime(time)[|DisplayTime(time)| - 2..] == "PM";
    assert pm <==> h >= 12;
    assert clock == if h == 0 then 12 else if h > 12 then h - 12 else h;
    ClockRoundTrip(h, clock, pm);
  }

  /** The 12-hour reading of an hour from 0 to 23, with its suffix, gives the hour back. */
  lemma ClockRoundTrip(h: nat, clock: nat, pm: bool)
    requires h <= 23
    requires clock == if h == 0 then 12 else if h > 12 then h - 12 else h
    requires pm <==> h >= 12
    ensures 1 <= clock <= 12 && To24Hour(clock, pm) == h
  {
  }

  /** Every offered slot has a numeric hour from 0 to 23. */
  lemma AvailableSlotsHaveHours()
    ensures forall i :: 0 <= i < |AvailableTimeSlots| ==>
      var h := HourPart(AvailableTimeSlots[i]);
      && |h| == 2 && NumericHour(h) && ParseDigits(h) <= 23
  {
    forall i | 0 <= i < |AvailableTimeSlots|
      ensures var h := HourPart(AvailableTimeSlots[i]); |h| == 2 && NumericHour(h) && ParseDigits(h) <= 23
    {
      var s := AvailableTimeSlots[i];
      assert |s| == 5 && s[2] == ':' && IsDigit(s[0]) && IsDigit(s[1]) && s[0] <= '2';
      assert s[0] == '2' ==> s[1] <= '3';
      HourOfSlot(s);
    }
  }

  lemma HourOfSlot(s: string)
    requires |s| == 5 && s[2] == ':' && IsDigit(s[0]) && IsDigit(s[1]) && s[0] <= '2'
    requires s[0] == '2' ==> s[1] <= '3'
    ensures var h := HourPart(s); |h| == 2 && NumericHour(h) && ParseDigits(h) <= 23
  {
    assert HourPart(s[2..]) == [];
    assert HourPart(s[1..]) == [s[1]];
    var h := HourPart(s);
    assert h == [s[0], s[1]];
    assert h[..1] == [s[0]];
  }

  /**
   * The page's `useState` fields. Each handler is a method that reassigns
   * the fields its setters touch; `loading`, the date range and the free-text
   * time field are not modelled.
   */
  class Page {
    var activeTab: Tab
    var form: CreateEventRequest
    var selectedTimeSlots: seq<string>
    var daily: Daily
    var drag: Drag

    /** The page as first rendered. */
    constructor ()
      ensures activeTab == Details
      ensures form == CreateEventRequest("", Some(""), None, None, [], [])
      ensures selectedTimeSlots == [] && daily == map[] && drag == Drag(false, Select)
    {
      activeTab := Details;
      form := CreateEventRequest("", Some(""), None, None, [], []);
      selectedTimeSlots := [];
      daily := map[];
      drag := Drag(false, Select);
    }

    /** Stores a new grid and, as every grid updater does, the form's instants derived from it. */
    method SetDaily(newDaily: Daily, toIso: Daily -> seq<Timestamp>)
      modifies this
      ensures daily == newDaily
      ensures form == old(form).(timeSlots := toIso(newDaily))
      ensures activeTab == old(activeTab) && selectedTimeSlots == old(selectedTimeSlots) && drag == old(drag)
    {
      daily := newDaily;
      form := form.(timeSlots := toIso(newDaily));
    }

    /** `toggleTimeSlotForDate(date, time)`; `past` is `isTimeSlotInPast(date, time)`. */
    method ToggleSlotForDate(date: string, time: string, past: bool, toIso: Daily -> seq<Timestamp>)
      modifies this
      ensures daily == ToggleTimeSlotForDate(old(daily), date, time, past)
      ensures form == if past then old(form) else old(form).(timeSlots := toIso(daily))
      ensures activeTab == old(activeTab) && selectedTimeSlots == old(selectedTimeSlots) && drag == old(drag)
    {
      if past {
        return;
      }
      SetDaily(ToggleTimeSlotForDate(daily, date, time, false), toIso);
    }

    /** `selectAllTimeSlotsForDate(date)`. */
    method SelectAllForDate(date: string, isPast: string -> bool, toIso: Daily -> seq<Timestamp>)
      modifies this
      ensures daily == SelectAllTimeSlotsForDate(old(daily), date, isPast)
      ensures form == old(form).(timeSlots := toIso(daily))
      ensures activeTab == old(activeTab) && selectedTimeSlots == old(selectedTimeSlots) && drag == old(drag)
    {
      SetDaily(SelectAllTimeSlotsForDate(daily, date, isPast), toIso);
    }

    /** `clearAllTimeSlotsForDate(date)`. */
    method ClearAllForDate(date: string, toIso: Daily -> seq<Timestamp>)
      modifies this
      ensures daily == ClearAllTimeSlotsForDate(old(daily), date)
      ensures form == old(form).(timeSlots := toIso(daily))
      ensures activeTab == old(activeTab) && selectedTimeSlots == old(selectedTimeSlots) && drag == old(drag)
    {
      SetDaily(ClearAllTimeSlotsForDate(daily, date), toIso);
    }

    /** `selectAllTimeSlots()`, with `dates` what `getDatesInRange()` returned. */
    method SelectAll(dates: seq<string>, isPast: (string, string) -> bool, toIso: Daily -> seq<Timestamp>)
      modifies this
      ensures daily == SelectAllTimeSlots(dates, isPast)
      ensures form == old(form).(timeSlots := toIso(daily))
      ensures activeTab == old(activeTab) && selectedTimeSlots == old(selectedTimeSlots) && drag == old(drag)
    {
      SetDaily(SelectAllTimeSlots(dates, isPast), toIso);
    }

    /** `clearAllTimeSlots()`: the grid and the form's instants are emptied. */
    method ClearAll()
      modifies this
      ensures daily == map[] && form == old(form).(timeSlots := [])
      ensures activeTab == old(activeTab) && selectedTimeSlots == old(selectedTimeSlots) && drag == old(drag)
    {
      daily := map[];
      form := form.(timeSlots := []);
    }

    /** `handleMouseDown(date, time)`. */
    method MouseDown(date: string, time: string, past: bool, toIso: Daily -> seq<Timestamp>)
      modifies this
      ensures drag == MouseDownDrag(old(drag), old(daily), date, time, past)
      ensures daily == ToggleTimeSlotForDate(old(daily), date, time, past)
      ensures form == if past then old(form) else old(form).(timeSlots := toIso(daily))
      ensures activeTab == old(activeTab) && selectedTimeSlots == old(selectedTimeSlots)
    {
      if past {
        return;
      }
      drag := MouseDownDrag(drag, daily, date, time, false);
      ToggleSlotForDate(date, time, false, toIso);
    }

    /** `handleMouseEnter(date, time)`. */
    method MouseEnter(date: string, time: string, past: bool, toIso: Daily -> seq<Timestamp>)
      modifies this
      ensures daily == MouseEnterDaily(old(drag), old(daily), date, time, past)
      ensures form == if daily == old(daily) then old(form) else old(form).(timeSlots := toIso(daily))
      ensures activeTab == old(activeTab) && selectedTimeSlots == old(selectedTimeSlots) && drag == old(drag)
    {
      if !drag.isDragging || past {
        return;
      }
      var selected := IsTimeSlotSelected(daily, date, time);
      if (drag.mode == Select && !selected) || (drag.mode == Deselect && selected) {
        ToggleSlotForDate(date, time, false, toIso);
      }
    }

    /** `handleMouseUp()`. */
    method MouseUp()
      modifies this
      ensures drag == old(drag).(isDragging := false)
      ensures activeTab == old(activeTab) && form == old(form) && selectedTimeSlots == old(selectedTimeSlots) && daily == old(daily)
    {
      drag := drag.(isDragging := false);
    }

    /** `toggleTimeSlot(time)`. */
    method ToggleSelectedSlot(time: string)
      modifies this
      ensures selectedTimeSlots == ToggleTimeSlot(old(selectedTimeSlots), time)
      ensures activeTab == old(activeTab) && form == old(form) && daily == old(daily) && drag == old(drag)
    {
      selectedTimeSlots := ToggleTimeSlot(selectedTimeSlots, time);
    }

    /** `removeTimeSlot(index)`. */
    method RemoveSlot(index: int)
      modifies this
      ensures form == RemoveTimeSlot(old(form), index)
      ensures activeTab == old(activeTab) && selectedTimeSlots == old(selectedTimeSlots) && daily == old(daily) && drag == old(drag)
    {
      form := RemoveTimeSlot(form, index);
    }

    /** `handleVenuesSelected(venues)`. */
    method VenuesSelected(venues: seq<VenueInput>)
      modifies this
      ensures form == old(form).(venues := venues)
      ensures activeTab == old(activeTab) && selectedTimeSlots == old(selectedTimeSlots) && daily == old(daily) && drag == old(drag)
    {
      form := form.(venues := venues);
    }

    /** `nextTab()`. */
    method GoNext()
      modifies this
      ensures activeTab == NextTab(old(activeTab))
      ensures form == old(form) && selectedTimeSlots == old(selectedTimeSlots) && daily == old(daily) && drag == old(drag)
    {
      activeTab := NextTab(activeTab);
    }

    /** `prevTab()`. */
    method GoPrev()
      modifies this
      ensures activeTab == PrevTab(old(activeTab))
      ensures form == old(form) && selectedTimeSlots == old(selectedTimeSlots) && daily == old(daily) && drag == old(drag)
    {
      activeTab := PrevTab(activeTab);
    }
  }
}
