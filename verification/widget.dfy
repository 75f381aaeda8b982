/** The booking widget's own generators: back-to-back simulated slots, the
    continuous 30-minute scan over the creator's calendar, and the filter that
    drops a slot once it is booked. Unlike the nested walk, the scan starts at
    a cursor five minutes after `now`, tests the hour of the slot's END, rejects
    slots that cross midnight, counts all-day events as busy and applies no
    past filter. */
module Widget {
  import opened Wrappers
  import opened Clock
  import opened Slots
  import opened Calendar
  import opened DayModes

  /** `maxBookingSlots`, `bookingStartHour`, `bookingEndHour`, `bookingDays`. */
  datatype WidgetProps = WidgetProps(maxBookingSlots: int, bookingStartHour: int, bookingEndHour: int, bookingDays: string)

  /** The four props as a page passes them; a prop left out is `None`. */
  datatype PassedProps = PassedProps(
    maxBookingSlots: Option<int>, bookingStartHour: Option<int>, bookingEndHour: Option<int>, bookingDays: Option<string>)

  /** The destructuring defaults of the component: five slots, from 9 to 17,
      on weekdays. A prop that is passed is used as given. */
  function WithDefaults(p: PassedProps): (props: WidgetProps)
    ensures p.maxBookingSlots.Some? ==> props.maxBookingSlots == p.maxBookingSlots.value
    ensures p.bookingStartHour.Some? ==> props.bookingStartHour == p.bookingStartHour.value
    ensures p.bookingEndHour.Some? ==> props.bookingEndHour == p.bookingEndHour.value
    ensures p.bookingDays.Some? ==> props.bookingDays == p.bookingDays.value
    ensures p == PassedProps(None, None, None, None) ==> props == WidgetProps(5, 9, 17, "weekdays")
  {
    WidgetProps(
      p.maxBookingSlots.GetOr(5),
      p.bookingStartHour.GetOr(9),
      p.bookingEndHour.GetOr(17),
      p.bookingDays.GetOr("weekdays"))
  }

  const AVAILABLE: string := "Available"

  // ---------------------------------------------------------------------
  // Simulated slots

  /** `start.setHours(bookingStartHour, 0, 0, 0)`: today at the start hour. */
  function TodayAt(now: int, hour: int): int {
    StartOfDay(now) + hour * HOUR
  }

  /** The simulated branch: `maxBookingSlots` back-to-back half hours from
      today at the start hour, with no weekday, end-hour or past filter. */
  method ConsecutiveSlots(now: int, props: WidgetProps) returns (slots: seq<Slot>)
    ensures |slots| == if props.maxBookingSlots > 0 then props.maxBookingSlots else 0
    ensures forall i :: 0 <= i < |slots| ==>
      var t := TodayAt(now, props.bookingStartHour) + i * SLOT;
      slots[i] == Slot(Seconds(t), Seconds(t + SLOT), Some(AVAILABLE))
    ensures forall i :: 0 <= i < |slots| ==> slots[i].end - slots[i].start == 30 * 60
    ensures forall i :: 0 <= i < |slots| - 1 ==> slots[i].end == slots[i + 1].start
    ensures |slots| > 0 ==> slots[0].start * SECOND == TodayAt(now, props.bookingStartHour)
  {
    var start := TodayAt(now, props.bookingStartHour);
    slots := [];
    var i := 0;
    while i < props.maxBookingSlots
      invariant 0 <= i && (i <= props.maxBookingSlots || i == 0)
      invariant |slots| == i
      invariant start == TodayAt(now, props.bookingStartHour) + i * SLOT
      invariant forall j :: 0 <= j < i ==>
        var t := TodayAt(now, props.bookingStartHour) + j * SLOT;
        slots[j] == Slot(Seconds(t), Seconds(t + SLOT), Some(AVAILABLE))
    {
      var end := start + SLOT;
      slots := slots + [Slot(Seconds(start), Seconds(end), Some(AVAILABLE))];
      start := start + SLOT;
      i := i + 1;
    }
    forall j | 0 <= j < |slots|
      ensures slots[j].end - slots[j].start == 30 * 60
    {
      var t := TodayAt(now, props.bookingStartHour) + j * SLOT;
      assert t + SLOT == (t / SECOND + 30 * 60) * SECOND + t % SECOND;
    }
    if |slots| > 0 {
      var t := TodayAt(now, props.bookingStartHour);
      assert t == (t / SECOND) * SECOND by {
        assert t == (DayNumber(now) * 86_400 + props.bookingStartHour * 3_600) * SECOND;
      }
    }
  }

  // ---------------------------------------------------------------------
  // Continuous scan

  /** `setSeconds(0, 0)` followed by `setMinutes(m - m % 30)`. */
  function FloorToHalfHour(t: int): (r: int)
    ensures r % SLOT == 0
    ensures r <= t < r + SLOT
  {
    var whole := t - t % MINUTE;
    FloorToHalfHourSteps(t);
    whole - (MinuteOf(whole) % 30) * MINUTE
  }

  lemma FloorToHalfHourSteps(t: int)
    ensures var whole := t - t % MINUTE;
      var r := whole - (MinuteOf(whole) % 30) * MINUTE;
      && r == t - t % SLOT
      && r == (t / SLOT) * SLOT
      && r % SLOT == 0
      && r <= t < r + SLOT
  {
    var n := t / MINUTE;
    var sec := t % MINUTE;
    var whole := t - sec;
    var a := n / 60;
    var v := n % 60;
    DivMod(whole, HOUR, a, v * MINUTE);
    DivMod(whole % HOUR, MINUTE, v, 0);
    var q := n / 30;
    var u := n % 30;
    DivMod(n, 30, 2 * a + v / 30, v % 30);
    DivMod(t, SLOT, q, u * MINUTE + sec);
    DivMod(q * SLOT, SLOT, q, 0);
  }

  /** Advancing the cursor by half an hour advances its floor by the same. */
  lemma FloorToHalfHourShift(t: int, j: int)
    ensures FloorToHalfHour(t + j * SLOT) == FloorToHalfHour(t) + j * SLOT
  {
    DivMod(t + j * SLOT, SLOT, t / SLOT + j, t % SLOT);
    FloorToHalfHourSteps(t);
    FloorToHalfHourSteps(t + j * SLOT);
  }

  /** The half-hour the cursor `current` proposes. */
  function ScanCandidate(current: int): (c: Interval)
    ensures c.end == c.start + SLOT && c.start % SLOT == 0
    ensures c.start <= current < c.end
  {
    var start := FloorToHalfHour(current);
    Interval(start, start + SLOT)
  }

  /** The `if` of the scan before the overlap test: the start hour is at
      least the start setting, the END hour at most the end setting, the slot
      ends by `maxTime`, its weekday is admitted and it does not cross
      midnight. An accepted slot therefore lies inside one calendar day, whose
      weekday the setting admits. */
  function ScanWindow(props: WidgetProps, maxTime: int, c: Interval): (ok: bool)
    ensures ok ==> c.start < c.end <= maxTime
    ensures ok ==> StartOfDay(c.end) == StartOfDay(c.start) && Weekday(c.end) == Weekday(c.start)
    ensures ok ==> WidgetDayAllowed(props.bookingDays, Weekday(c.end))
  {
    && HourOf(c.start) >= props.bookingStartHour
    && HourOf(c.end) <= props.bookingEndHour
    && c.end > c.start
    && c.end <= maxTime
    && WidgetDayAllowed(props.bookingDays, Weekday(c.start))
    && DayNumber(c.end) == DayNumber(c.start)
  }

  predicate ScanAccepts(props: WidgetProps, maxTime: int, events: seq<Event>, c: Interval) {
    ScanWindow(props, maxTime, c) && !AnyEventBlocks(c, events)
  }

  /** `while (slots.length < maxBookingSlots && current < maxTime)`. */
  function ScanLoop(props: WidgetProps, events: seq<Event>, maxTime: int, current: int, acc: seq<Interval>): seq<Interval>
    decreases maxTime - current
  {
    if !(|acc| < props.maxBookingSlots && current < maxTime) then acc
    else
      var c := ScanCandidate(current);
      var acc' := if ScanAccepts(props, maxTime, events, c) then acc + [c] else acc;
      ScanLoop(props, events, maxTime, current + SLOT, acc')
  }

  /** `slots.slice(0, n)` of JavaScript. */
  function SliceToFront<T>(s: seq<T>, n: int): (r: seq<T>)
    ensures |r| <= |s| && r == s[..|r|]
    ensures 0 <= n ==> |r| == if n < |s| then n else |s|
  {
    var end := if n < 0 then (if |s| + n > 0 then |s| + n else 0) else if n > |s| then |s| else n;
    s[..end]
  }

  /** The cursor window: from five minutes after `now` to seven days later. */
  function ScanStart(now: int): int { now + 5 * MINUTE }
  function ScanEnd(now: int): int { ScanStart(now) + 7 * DAY }

  /** `fetchGoogleCalendarSlots` once the events arrived: at most
      `maxBookingSlots` records, none for a cap below one, each labelled
      `Available`. */
  function CalendarSlots(now: int, props: WidgetProps, events: seq<Event>): (r: seq<Slot>)
    ensures |r| <= (if props.maxBookingSlots > 0 then props.maxBookingSlots else 0)
    ensures forall i :: 0 <= i < |r| ==> r[i].summary == Some(AVAILABLE)
  {
    var found := ScanLoop(props, events, ScanEnd(now), ScanStart(now), []);
    ScanLoopCap(props, events, ScanEnd(now), ScanStart(now), []);
    ToWire(SliceToFront(found, props.maxBookingSlots), Some(AVAILABLE))
  }

  /** The `j`-th cursor position of a scan started at `start`. */
  function Cursor(start: int, j: int): int { start + j * SLOT }

  /** The scan only appends, and what it appends are accepted grid half
      hours at or after the current cursor's floor. */
  lemma {:induction false} ScanLoopExtends(props: WidgetProps, events: seq<Event>, maxTime: int, current: int, acc: seq<Interval>)
    ensures var r := ScanLoop(props, events, maxTime, current, acc);
      && |acc| <= |r| && r[..|acc|] == acc
      && (forall i :: |acc| <= i < |r| ==>
            && ScanAccepts(props, maxTime, events, r[i])
            && r[i].end == r[i].start + SLOT && r[i].start % SLOT == 0
            && FloorToHalfHour(current) <= r[i].start)
    decreases maxTime - current
  {
    if |acc| < props.maxBookingSlots && current < maxTime {
      var c := ScanCandidate(current);
      var acc' := if ScanAccepts(props, maxTime, events, c) then acc + [c] else acc;
      var r := ScanLoop(props, events, maxTime, current + SLOT, acc');
      assert ScanLoop(props, events, maxTime, current, acc) == r;
      FloorToHalfHourShift(current, 1);
      ScanLoopExtends(props, events, maxTime, current + SLOT, acc');
      assert r[..|acc|] == r[..|acc'|][..|acc|];
      forall i | |acc| <= i < |r|
        ensures ScanAccepts(props, maxTime, events, r[i])
        ensures r[i].end == r[i].start + SLOT && r[i].start % SLOT == 0
        ensures FloorToHalfHour(current) <= r[i].start
      {
        if i >= |acc'| {
        } else {
          assert r[i] == acc'[i] == c;
        }
      }
    }
  }

  /** The scan stops at the cap. */
  lemma {:induction false} ScanLoopCap(props: WidgetProps, events: seq<Event>, maxTime: int, current: int, acc: seq<Interval>)
    ensures var r := ScanLoop(props, events, maxTime, current, acc);
      && (|acc| < props.maxBookingSlots ==> |r| <= props.maxBookingSlots)
      && (|acc| >= props.maxBookingSlots ==> r == acc)
    decreases maxTime - current
  {
    if |acc| < props.maxBookingSlots && current < maxTime {
      var c := ScanCandidate(current);
      var acc' := if ScanAccepts(props, maxTime, events, c) then acc + [c] else acc;
      assert ScanLoop(props, events, maxTime, current, acc) == ScanLoop(props, events, maxTime, current + SLOT, acc');
      ScanLoopCap(props, events, maxTime, current + SLOT, acc');
    }
  }

  /** The scan keeps its list strictly ascending. */
  lemma {:induction false} ScanLoopAscending(props: WidgetProps, events: seq<Event>, maxTime: int, current: int, acc: seq<Interval>)
    requires StrictlyAscending(acc)
    requires forall i :: 0 <= i < |acc| ==> acc[i].start < FloorToHalfHour(current)
    ensures StrictlyAscending(ScanLoop(props, events, maxTime, current, acc))
    decreases maxTime - current
  {
    if |acc| < props.maxBookingSlots && current < maxTime {
      var c := ScanCandidate(current);
      var accepted := ScanAccepts(props, maxTime, events, c);
      var acc' := if accepted then acc + [c] else acc;
      assert ScanLoop(props, events, maxTime, current, acc) == ScanLoop(props, events, maxTime, current + SLOT, acc');
      FloorToHalfHourShift(current, 1);
      if accepted {
        forall i, j | 0 <= i < j < |acc'|
          ensures acc'[i].start < acc'[j].start
        {
          if j == |acc| {
            assert acc'[i] == acc[i] && acc'[j] == c;
          } else {
            assert acc'[i] == acc[i] && acc'[j] == acc[j];
          }
        }
      }
      ScanLoopAscending(props, events, maxTime, current + SLOT, acc');
    }
  }

  lemma ScanLoopFacts(props: WidgetProps, events: seq<Event>, maxTime: int, current: int, acc: seq<Interval>)
    requires StrictlyAscending(acc)
    requires forall i :: 0 <= i < |acc| ==> acc[i].start < FloorToHalfHour(current)
    ensures var r := ScanLoop(props, events, maxTime, current, acc);
      && |acc| <= |r| && r[..|acc|] == acc
      && StrictlyAscending(r)
      && (forall i :: |acc| <= i < |r| ==>
            && ScanAccepts(props, maxTime, events, r[i])
            && r[i].end == r[i].start + SLOT && r[i].start % SLOT == 0
            && FloorToHalfHour(current) <= r[i].start)
      && (|acc| < props.maxBookingSlots ==> |r| <= props.maxBookingSlots)
      && (|acc| >= props.maxBookingSlots ==> r == acc)
  {
    ScanLoopExtends(props, events, maxTime, current, acc);
    ScanLoopCap(props, events, maxTime, current, acc);
    ScanLoopAscending(props, events, maxTime, current, acc);
  }

  /** An accepted half hour at the cursor is appended while below the cap. */
  lemma ScanLoopYieldsCurrent(props: WidgetProps, events: seq<Event>, maxTime: int, current: int, acc: seq<Interval>)
    requires |acc| < props.maxBookingSlots && current < maxTime
    requires ScanAccepts(props, maxTime, events, ScanCandidate(current))
    ensures ScanCandidate(current) in ScanLoop(props, events, maxTime, current, acc)
  {
    var c := ScanCandidate(current);
    var acc' := acc + [c];
    assert ScanLoop(props, events, maxTime, current, acc) == ScanLoop(props, events, maxTime, current + SLOT, acc');
    ScanLoopExtends(props, events, maxTime, current + SLOT, acc');
    assert ScanLoop(props, events, maxTime, current, acc)[..|acc'|] == acc';
    assert c == acc'[|acc|];
  }

  /** At the cap the scan returns its list, which lies before every later
      cursor position. */
  lemma ScanLoopAtCap(props: WidgetProps, events: seq<Event>, maxTime: int, current: int, acc: seq<Interval>, j: nat)
    requires forall i :: 0 <= i < |acc| ==> acc[i].start < FloorToHalfHour(current)
    requires |acc| >= props.maxBookingSlots
    ensures var r := ScanLoop(props, events, maxTime, current, acc);
      r == acc && forall i :: 0 <= i < |r| ==> r[i].start < ScanCandidate(Cursor(current, j)).start
  {
  }

  /** Every acceptable cursor position before `maxTime` yields a slot, unless
      the cap was reached by slots that all start before it. */
  lemma {:induction false} ScanLoopComplete(props: WidgetProps, events: seq<Event>, maxTime: int, current: int, acc: seq<Interval>, j: nat)
    requires forall i :: 0 <= i < |acc| ==> acc[i].start < FloorToHalfHour(current)
    requires Cursor(current, j) < maxTime
    requires ScanAccepts(props, maxTime, events, ScanCandidate(Cursor(current, j)))
    ensures var r := ScanLoop(props, events, maxTime, current, acc);
      var c := ScanCandidate(Cursor(current, j));
      c in r || (|r| >= props.maxBookingSlots && forall i :: 0 <= i < |r| ==> r[i].start < c.start)
    decreases maxTime - current
  {
    if |acc| >= props.maxBookingSlots {
      ScanLoopAtCap(props, events, maxTime, current, acc, j);
    } else if j == 0 {
      assert Cursor(current, j) == current;
      ScanLoopYieldsCurrent(props, events, maxTime, current, acc);
    } else {
      var c := ScanCandidate(current);
      var acc' := if ScanAccepts(props, maxTime, events, c) then acc + [c] else acc;
      assert current < maxTime;
      assert ScanLoop(props, events, maxTime, current, acc) == ScanLoop(props, events, maxTime, current + SLOT, acc');
      assert Cursor(current, j) == Cursor(current + SLOT, j - 1);
      FloorToHalfHourShift(current, 1);
      ScanLoopComplete(props, events, maxTime, current + SLOT, acc', j - 1);
    }
  }

  /** The scan's promises: at most `maxBookingSlots` slots, strictly
      ascending, each an accepted half hour labelled `Available` that starts
      no earlier than the half hour holding `now` + 5 minutes and overlaps no
      event; and every acceptable cursor position of the week is
      among them unless the cap was reached by slots that all start before
      it, so the slots are the first accepted half hours of the week. */
  lemma CalendarSlotsSpec(now: int, props: WidgetProps, events: seq<Event>)
    ensures var r := CalendarSlots(now, props, events);
      && |r| <= (if props.maxBookingSlots > 0 then props.maxBookingSlots else 0)
      && (forall i, j :: 0 <= i < j < |r| ==> r[i].start < r[j].start)
      && (forall i :: 0 <= i < |r| ==>
            var c := Interval(r[i].start * SECOND, r[i].end * SECOND);
            && r[i].summary == Some(AVAILABLE)
            && r[i].end - r[i].start == 30 * 60
            && c.start % SLOT == 0
            && FloorToHalfHour(ScanStart(now)) <= c.start
            && ScanWindow(props, ScanEnd(now), c)
            && (forall e :: e in events ==> !BlocksWidgetSlot(c, e)))
      && (forall j :: 0 <= j < 7 * 48 && ScanAccepts(props, ScanEnd(now), events, ScanCandidate(Cursor(ScanStart(now), j))) ==>
            var c := ScanCandidate(Cursor(ScanStart(now), j));
            c in FromWire(r) || (|r| >= props.maxBookingSlots && forall i :: 0 <= i < |r| ==> r[i].start * SECOND < c.start))
  {
    var maxTime := ScanEnd(now);
    var found := ScanLoop(props, events, maxTime, ScanStart(now), []);
    ScanLoopFacts(props, events, maxTime, ScanStart(now), []);
    assert SliceToFront(found, props.maxBookingSlots) == found;
    var r := CalendarSlots(now, props, events);
    forall i | 0 <= i < |found|
      ensures WholeSeconds(found[i])
    {
      GridIsWholeSeconds(found[i]);
    }
    WireRoundTrip(found, Some(AVAILABLE));
    assert FromWire(r) == found;
    forall j | 0 <= j < 7 * 48 && ScanAccepts(props, maxTime, events, ScanCandidate(Cursor(ScanStart(now), j)))
      ensures var c := ScanCandidate(Cursor(ScanStart(now), j));
        c in FromWire(r) || (|r| >= props.maxBookingSlots && forall i :: 0 <= i < |r| ==> r[i].start * SECOND < c.start)
    {
      ScanLoopComplete(props, events, maxTime, ScanStart(now), [], j);
    }
  }

  /** A widget placed with none of the four props offers at most five
      slots, each on a weekday, starting at 9:00 or later and ending by the
      17th hour. */
  lemma DefaultPropsOfferWeekdayOfficeHours(now: int, events: seq<Event>)
    ensures var r := CalendarSlots(now, WithDefaults(PassedProps(None, None, None, None)), events);
      && |r| <= 5
      && forall i :: 0 <= i < |r| ==>
           var s := r[i].start * SECOND;
           && 1 <= Weekday(s) <= 5
           && 9 <= HourOf(s)
           && HourOf(r[i].end * SECOND) <= 17
  {
    var props := WithDefaults(PassedProps(None, None, None, None));
    CalendarSlotsSpec(now, props, events);
  }

  /** The end-hour test reads the hour of the slot's end, so the half hour
      starting exactly at `bookingEndHour`:00 passes it. */
  lemma ScanAdmitsSlotStartingAtEndHour(props: WidgetProps, day: int)
    requires day % DAY == 0
    requires 0 <= props.bookingStartHour <= props.bookingEndHour < 24
    requires WidgetDayAllowed(props.bookingDays, Weekday(day))
    ensures var t := day + props.bookingEndHour * HOUR;
      ScanWindow(props, t + SLOT, Interval(t, t + SLOT))
  {
    var t := day + props.bookingEndHour * HOUR;
    TimeOfDay(day, props.bookingEndHour * HOUR);
    TimeOfDay(day, props.bookingEndHour * HOUR + SLOT);
  }

  /** There is no past filter: with `now` at 09:20 on a Monday and working
      hours from 9, the first slot offered is 09:00-09:30, which has already
      begun. */
  lemma ScanCanOfferSlotBeforeNow()
    ensures var now := 4 * DAY + 9 * HOUR + 20 * MINUTE;
      var r := CalendarSlots(now, WidgetProps(5, 9, 17, "weekdays"), []);
      |r| > 0 && r[0].start * SECOND < now
  {
    var now := 4 * DAY + 9 * HOUR + 20 * MINUTE;
    var props := WidgetProps(5, 9, 17, "weekdays");
    var maxTime := ScanEnd(now);
    var c := ScanCandidate(ScanStart(now));
    FloorToHalfHourSteps(ScanStart(now));
    assert c == Interval(4 * DAY + 9 * HOUR, 4 * DAY + 9 * HOUR + SLOT);
    TimeOfDay(4 * DAY, 9 * HOUR);
    TimeOfDay(4 * DAY, 9 * HOUR + SLOT);
    assert ScanAccepts(props, maxTime, [], c);
    FloorToHalfHourShift(ScanStart(now), 1);
    ScanLoopFacts(props, [], maxTime, ScanStart(now) + SLOT, [c]);
    var found := ScanLoop(props, [], maxTime, ScanStart(now), []);
    assert ScanStart(now) < maxTime;
    assert [] + [c] == [c];
    assert found == ScanLoop(props, [], maxTime, ScanStart(now) + SLOT, [c]);
    assert found[..1] == [c];
    ScanLoopFacts(props, [], maxTime, ScanStart(now), []);
    assert SliceToFront(found, 5) == found;
    GridIsWholeSeconds(c);
  }

  // ---------------------------------------------------------------------
  // After a booking

  predicate SameTimes(a: Slot, b: Slot) {
    a.start == b.start && a.end == b.end
  }

  /** `availableSlots.filter(s => s.start !== slot.start || s.end !== slot.end)`. */
  function RemoveBooked(slots: seq<Slot>, booked: Slot): (r: seq<Slot>)
    ensures |r| <= |slots|
    ensures forall s :: s in r <==> s in slots && !SameTimes(s, booked)
  {
    if |slots| == 0 then []
    else
      var rest := RemoveBooked(slots[1..], booked);
      assert forall s :: s in slots <==> s == slots[0] || s in slots[1..];
      if SameTimes(slots[0], booked) then rest else [slots[0]] + rest
  }

  /** The remaining slots keep their order: removal distributes over
      concatenation. */
  lemma {:induction false} RemoveBookedAppend(a: seq<Slot>, b: seq<Slot>, booked: Slot)
    ensures RemoveBooked(a + b, booked) == RemoveBooked(a, booked) + RemoveBooked(b, booked)
  {
    if |a| == 0 {
      assert a + b == b;
    } else {
      assert (a + b)[0] == a[0];
      assert (a + b)[1..] == a[1..] + b;
      RemoveBookedAppend(a[1..], b, booked);
    }
  }

  /** Removing the same booking twice changes nothing the second time. */
  lemma {:induction false} RemoveBookedIdempotent(slots: seq<Slot>, booked: Slot)
    ensures RemoveBooked(RemoveBooked(slots, booked), booked) == RemoveBooked(slots, booked)
  {
    if |slots| > 0 {
      RemoveBookedIdempotent(slots[1..], booked);
    }
  }
}
