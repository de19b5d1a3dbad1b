/** The calendar logic of src/pages/Dashboard.jsx: which events start on a
    chosen day, which month tiles are marked, and how the fetched event
    list is unwrapped, with the page's state. */
module Dashboard {
  import opened Common

  /** The calendar's views; tiles are decorated only in the month view. */
  datatype CalendarView = MonthView | YearView | DecadeView | CenturyView

  /** `eventsOnDate(date)`: the events whose start falls on that calendar day. */
  function EventsOnDate(events: seq<Event>, date: int): (r: seq<Event>)
    ensures forall ev :: ev in r <==> ev in events && ev.startDay == Day(date)
    ensures Subsequence(r, events)
  {
    FilterIsSubsequence(events, (ev: Event) => ev.startDay == Day(date));
    Filter(events, (ev: Event) => ev.startDay == Day(date))
  }

  /** `events.some(ev => same day as date)`, as the tile callbacks test it. */
  predicate HasEvent(events: seq<Event>, date: int) {
    exists ev :: ev in events && ev.startDay == Day(date)
  }

  /** `tileClassName`: "event-date" on a month tile with an event; nothing
      (null, or undefined outside the month view) otherwise. */
  function TileClassName(events: seq<Event>, date: int, view: CalendarView): (r: Option<string>)
    ensures r.Some? ==> r.value == "event-date"
    ensures r.Some? <==> view == MonthView && |EventsOnDate(events, date)| > 0
  {
    var onDate := EventsOnDate(events, date);
    assert |onDate| > 0 ==> onDate[0] in onDate;
    if view == MonthView && HasEvent(events, date) then Some("event-date") else None
  }

  /** `tileContent`: whether the checkmark is drawn. */
  predicate ShowsCheckmark(events: seq<Event>, date: int, view: CalendarView)
    ensures ShowsCheckmark(events, date, view) <==> TileClassName(events, date, view) == Some("event-date")
  {
    view == MonthView && HasEvent(events, date)
  }

  /** The list under the calendar reads "No events scheduled for this date." */
  predicate ShowsNoEvents(events: seq<Event>, selected: int)
    ensures ShowsNoEvents(events, selected) <==> !HasEvent(events, selected)
  {
    var onDate := EventsOnDate(events, selected);
    assert |onDate| > 0 ==> onDate[0] in onDate;
    |onDate| == 0
  }

  /** `eventsOnDate` keeps exactly the events starting on that day, each as
      often as the list has it, in list order. */
  lemma EventsOnDateExact(events: seq<Event>, date: int)
    ensures forall ev :: ev in EventsOnDate(events, date) <==> ev in events && ev.startDay == Day(date)
    ensures forall ev: Event :: ev.startDay == Day(date) ==>
      multiset(EventsOnDate(events, date))[ev] == multiset(events)[ev]
    ensures Subsequence(EventsOnDate(events, date), events)
  {
    FilterIsSubsequence(events, (ev: Event) => ev.startDay == Day(date));
    FilterCounts(events, (ev: Event) => ev.startDay == Day(date));
  }

  /** A month tile is marked, and gets the checkmark, exactly when
      `eventsOnDate` of its day is non-empty; tiles of other views never are. */
  lemma TileMarkedIffEventsOnDate(events: seq<Event>, date: int, view: CalendarView)
    ensures TileClassName(events, date, view) == Some("event-date")
        <==> view == MonthView && |EventsOnDate(events, date)| > 0
    ensures ShowsCheckmark(events, date, view) <==> TileClassName(events, date, view).Some?
    ensures view != MonthView ==> TileClassName(events, date, view) == None
  {
    var r := EventsOnDate(events, date);
    if HasEvent(events, date) {
      var ev :| ev in events && ev.startDay == Day(date);
      assert ev in r;
    }
    if |r| > 0 {
      assert r[0] in r;
    }
  }

  /** The "no events" message and a marked month tile exclude each other
      for the selected day. */
  lemma NoEventsIffUnmarked(events: seq<Event>, selected: int)
    ensures ShowsNoEvents(events, selected) <==> TileClassName(events, selected, MonthView) == None
  {
    TileMarkedIffEventsOnDate(events, selected, MonthView);
  }

  /** `setEvents(res.data.events || res.data || [])`; a failed request
      (`response == None`) or a body whose read throws leaves the list as
      it was (the handler's `catch`). */
  function AfterFetch(current: seq<Event>, response: Option<Json<Event>>): (events: seq<Event>)
    ensures response.None? ==> events == current
    ensures response.Some? && ListRead(response.value).Some? ==> events == ListRead(response.value).value
    ensures response.Some? && ListRead(response.value).None? ==> events == current
    ensures response == Some(Null) || response == Some(Undefined) ==> events == current
    ensures response.Some? && response.value.Array? ==> events == response.value.items
    ensures response.Some? && response.value.Object? && response.value.field.Array?
      ==> events == response.value.field.items
    ensures response == Some(FalsyScalar) ==> events == []
  {
    if response.Some? && ListRead(response.value).Some? then ListRead(response.value).value else current
  }

  /** The two layouts toggled by the "Calendar View" and "List View" buttons. */
  datatype Layout = CalendarLayout | ListLayout

  /** The page's state slots: `events`, `selectedDate` and `view`. */
  class DashboardView {
    var events: seq<Event>
    var selected: int
    var layout: Layout

    /** Mount: no events, today's date selected, the calendar layout. */
    constructor(today: int)
      ensures events == [] && selected == today && layout == CalendarLayout
    {
      events := [];
      selected := today;
      layout := CalendarLayout;
    }

    /** `fetchEvents` settling with `response`. */
    method Fetch(response: Option<Json<Event>>)
      modifies this`events
      ensures events == AfterFetch(old(events), response)
    {
      events := AfterFetch(events, response);
    }

    /** The calendar's `onChange={setSelectedDate}`. */
    method Select(date: int)
      modifies this`selected
      ensures selected == date
    {
      selected := date;
    }

    /** `setView("calendar")` / `setView("list")`. */
    method SetLayout(l: Layout)
      modifies this`layout
      ensures layout == l
    {
      layout := l;
    }

    /** The cards under the view: the selected day's events in the calendar
        layout, every event in the list layout; always in list order. */
    function Cards(): (r: seq<Event>)
      reads this
      ensures layout == ListLayout ==> r == events
      ensures layout == CalendarLayout ==> forall ev :: ev in r <==> ev in events && ev.startDay == Day(selected)
      ensures layout == CalendarLayout ==> forall ev ::
        multiset(r)[ev] == if ev.startDay == Day(selected) then multiset(events)[ev] else 0
      ensures Subsequence(r, events)
    {
      if layout == CalendarLayout then
        EventsOnDateExact(events, selected);
        EventsOnDate(events, selected)
      else
        SubsequenceReflexive(events);
        events
    }
  }
}
