/** Calendar events as the event-listing API returns them, and the two ways
    the generators turn them into busy intervals.

    A date field that the API omits (or sends empty) is `None`; a present one
    is already parsed to milliseconds, as `new Date(x).getTime()` would. */
module Calendar {
  import opened Wrappers
  import opened Clock

  /** The `start` or `end` object of an event: a timed `dateTime` or an
      all-day `date`. */
  datatype EventTime = EventTime(dateTime: Option<int>, date: Option<int>)

  datatype Event = Event(start: Option<EventTime>, end: Option<EventTime>)

  /** The filter of the nested-walk call sites: both ends present and both
      carrying a `dateTime`. All-day events fail it. */
  predicate IsTimed(e: Event) {
    && e.start.Some? && e.end.Some?
    && e.start.value.dateTime.Some? && e.end.value.dateTime.Some?
  }

  function TimedInterval(e: Event): Interval
    requires IsTimed(e)
  {
    Interval(e.start.value.dateTime.value, e.end.value.dateTime.value)
  }

  /** Busy extraction: the `[start, end)` pair of every timed event, in event
      order; every other event is dropped. */
  function ExtractBusy(events: seq<Event>): (busy: seq<Interval>)
    ensures |busy| <= |events|
    ensures forall i :: 0 <= i < |events| && IsTimed(events[i]) ==> TimedInterval(events[i]) in busy
    ensures forall b :: b in busy ==> exists i :: 0 <= i < |events| && IsTimed(events[i]) && TimedInterval(events[i]) == b
    ensures (forall i :: 0 <= i < |events| ==> !IsTimed(events[i])) ==> busy == []
  {
    if |events| == 0 then []
    else
      var rest := ExtractBusy(events[1..]);
      assert forall i :: 1 <= i < |events| ==> events[i] == events[1..][i - 1];
      if IsTimed(events[0]) then [TimedInterval(events[0])] + rest else rest
  }

  /** Extraction keeps event order: it distributes over concatenation. */
  lemma {:induction false} ExtractBusyAppend(a: seq<Event>, b: seq<Event>)
    ensures ExtractBusy(a + b) == ExtractBusy(a) + ExtractBusy(b)
  {
    if |a| == 0 {
      assert a + b == b;
    } else {
      assert (a + b)[0] == a[0];
      assert (a + b)[1..] == a[1..] + b;
      ExtractBusyAppend(a[1..], b);
    }
  }

  /** `busy.some(...)`: does the slot overlap any busy pair? */
  function OverlapsAny(slot: Interval, busy: seq<Interval>): (r: bool)
    ensures r <==> exists i :: 0 <= i < |busy| && Overlaps(slot, busy[i])
  {
    if |busy| == 0 then false
    else
      var rest := OverlapsAny(slot, busy[1..]);
      assert forall i :: 1 <= i < |busy| ==> busy[i] == busy[1..][i - 1];
      Overlaps(slot, busy[0]) || rest
  }

  /** `new Date(t.dateTime || t.date)` in the widget: the timed field if
      present, else the all-day date; with neither the date is invalid. */
  function WidgetInstant(t: EventTime): Option<int> {
    if t.dateTime.Some? then t.dateTime else t.date
  }

  /** Whether an event blocks a candidate in the widget's scan. Events without
      a start or an end were filtered out; an invalid date compares false
      against everything, so it never blocks. On a timed event the test is
      the nested walks' overlap test against the event's busy pair. */
  function BlocksWidgetSlot(slot: Interval, e: Event): (blocks: bool)
    ensures blocks ==> e.start.Some? && e.end.Some?
    ensures IsTimed(e) ==> (blocks <==> Overlaps(slot, TimedInterval(e)))
  {
    && e.start.Some? && e.end.Some?
    && var s := WidgetInstant(e.start.value);
    && var t := WidgetInstant(e.end.value);
    && s.Some? && t.Some?
    && Overlaps(slot, Interval(s.value, t.value))
  }

  /** `events.some(...)` in the widget. */
  function AnyEventBlocks(slot: Interval, events: seq<Event>): (r: bool)
    ensures r <==> exists i :: 0 <= i < |events| && BlocksWidgetSlot(slot, events[i])
  {
    if |events| == 0 then false
    else
      var rest := AnyEventBlocks(slot, events[1..]);
      assert forall i :: 1 <= i < |events| ==> events[i] == events[1..][i - 1];
      BlocksWidgetSlot(slot, events[0]) || rest
  }

  /** The widget counts all-day events as busy where the nested walks drop
      them: an all-day event covering a slot blocks it only in the widget. */
  lemma AllDayEventBlocksOnlyInWidget(slot: Interval, day: int)
    requires slot.start < day + DAY && slot.end > day
    ensures var e := Event(Some(EventTime(None, Some(day))), Some(EventTime(None, Some(day + DAY))));
      && AnyEventBlocks(slot, [e])
      && ExtractBusy([e]) == []
  {
    var e := Event(Some(EventTime(None, Some(day))), Some(EventTime(None, Some(day + DAY))));
    assert BlocksWidgetSlot(slot, [e][0]);
  }
}
