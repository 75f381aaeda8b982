/** The places that run the nested walk: the demo site's effect (simulated
    and calendar branches), the component demo's simulated branch and the
    creator-availability API handler. Each reads the same four settings, walks
    two weeks from `now`, and hands back `{start, end}` in seconds. */
module CallSites {
  import opened Wrappers
  import opened Clock
  import opened Calendar
  import opened Slots
  import opened DayModes
  import opened NestedWalk
  import opened NestedCandidates
  import opened NestedProperties

  /** `MAX_SLOTS`, `START_HOUR`, `END_HOUR` and the lower-cased `BOOKING_DAYS`,
      already parsed. */
  datatype BookingEnv = BookingEnv(maxSlots: int, startHour: int, endHour: int, bookingDays: string)

  /** Settings the promises below are stated for: working hours inside one
      day and a cap of at least one slot. */
  predicate WellFormedEnv(env: BookingEnv) {
    0 <= env.startHour && env.endHour <= 24 && env.maxSlots >= 1
  }

  function TemplateOf(env: BookingEnv): Template {
    Template(env.startHour, env.endHour, AllowedDays(env.bookingDays), env.maxSlots)
  }

  function TwoWeeksLater(now: int): int {
    now + 14 * DAY
  }

  /** What every nested-walk call site promises about the slots it returns,
      read back in milliseconds. */
  predicate OpenSlotList(now: int, horizon: int, env: BookingEnv, busy: seq<Interval>, r: seq<Slot>) {
    && |r| <= env.maxSlots
    && (forall i, j :: 0 <= i < j < |r| ==> r[i].start < r[j].start)
    && (forall i :: 0 <= i < |r| ==> WireSlotOpen(now, horizon, env, busy, r[i]))
  }

  function WalkOf(now: int, env: BookingEnv, busy: seq<Interval>): Walk {
    Walk(now, TwoWeeksLater(now), TemplateOf(env), busy)
  }

  /** Every open slot of the fortnight, read in milliseconds, is among the
      records unless the cap was reached before it. */
  ghost predicate ReturnsEveryOpenSlot(now: int, env: BookingEnv, busy: seq<Interval>, r: seq<Slot>) {
    forall c :: Open(WalkOf(now, env, busy), c) ==>
      c in FromWire(r) || (|r| == env.maxSlots && 0 < |r| && c.start > r[|r| - 1].start * SECOND)
  }

  /** One run of the walk over two weeks, as wire records. Writing the slots
      in seconds loses nothing: read back, they are the walk's slots. */
  function NestedSlots(now: int, env: BookingEnv, busy: seq<Interval>): (r: seq<Slot>)
    ensures |r| == |Run(WalkOf(now, env, busy))|
    ensures FromWire(r) == Run(WalkOf(now, env, busy))
  {
    RunOnWire(WalkOf(now, env, busy));
    ToWire(Run(WalkOf(now, env, busy)), None)
  }

  /** A candidate starts at local midnight plus whole hours and minutes, so
      both its ends fall on whole seconds, whatever the hour. */
  lemma CandidateOnWholeSeconds(w: Walk, k: nat, h: int, m: int)
    ensures WholeSeconds(Candidate(w, k, h, m))
  {
    var c := Candidate(w, k, h, m);
    var q := DayNumber(DayCursor(w, k)) * 86_400 + h * 3_600 + m * 60;
    DivMod(c.start, SECOND, q, 0);
    DivMod(c.end, SECOND, q + 1_800, 0);
  }

  lemma {:induction false} MinuteCandidatesOnWholeSeconds(w: Walk, k: nat, h: int, m: nat)
    ensures forall c :: c in MinuteCandidates(w, k, h, m) ==> WholeSeconds(c)
    decreases 60 - m
  {
    if m < 60 {
      CandidateOnWholeSeconds(w, k, h, m);
      MinuteCandidatesOnWholeSeconds(w, k, h, m + 30);
    }
  }

  lemma {:induction false} HourCandidatesOnWholeSeconds(w: Walk, k: nat, h: int)
    ensures forall c :: c in HourCandidates(w, k, h) ==> WholeSeconds(c)
    decreases w.template.endHour - h
  {
    if h < w.template.endHour {
      MinuteCandidatesOnWholeSeconds(w, k, h, 0);
      HourCandidatesOnWholeSeconds(w, k, h + 1);
    }
  }

  lemma {:induction false} DayCandidatesOnWholeSeconds(w: Walk, k: nat)
    ensures forall c :: c in DayCandidates(w, k) ==> WholeSeconds(c)
    decreases w.horizon - DayCursor(w, k)
  {
    if DayCursor(w, k) <= w.horizon {
      HourCandidatesOnWholeSeconds(w, k, w.template.startHour);
      DayCandidatesOnWholeSeconds(w, k + 1);
    }
  }

  /** The walk's slots lie on whole seconds for every template, so the
      records read back to them. */
  lemma RunOnWire(w: Walk)
    ensures FromWire(ToWire(Run(w), None)) == Run(w)
  {
    WalkIsFlat(w);
    DayCandidatesOnWholeSeconds(w, 0);
    FlatLoopSound(w, Candidates(w), []);
    WireRoundTrip(Run(w), None);
  }

  /** The per-slot promises, for one open slot written in seconds. */
  predicate WireSlotOpen(now: int, horizon: int, env: BookingEnv, busy: seq<Interval>, slot: Slot) {
    var s := slot.start * SECOND;
    && slot.end - slot.start == 30 * 60
    && slot.summary == None
    && now < s && slot.end * SECOND <= horizon
    && env.startHour <= HourOf(s) < env.endHour
    && (MinuteOf(s) == 0 || MinuteOf(s) == 30)
    && s % MINUTE == 0
    && Weekday(s) in AllowedDays(env.bookingDays)
    && !OverlapsAny(Interval(s, slot.end * SECOND), busy)
  }

  lemma OpenSlotOnWire(now: int, env: BookingEnv, busy: seq<Interval>, iv: Interval)
    requires Open(WalkOf(now, env, busy), iv)
    ensures WholeSeconds(iv)
    ensures WireSlotOpen(now, TwoWeeksLater(now), env, busy, Slot(Seconds(iv.start), Seconds(iv.end), None))
  {
    GridIsWholeSeconds(iv);
    GridClockFields(WalkOf(now, env, busy), iv);
    assert Seconds(iv.start) * SECOND == iv.start;
    assert Seconds(iv.end) * SECOND == iv.end;
  }

  /** Every record keeps the walk's promises, in ascending order, within
      the cap. */
  lemma NestedSlotsSound(now: int, env: BookingEnv, busy: seq<Interval>)
    requires WellFormedEnv(env)
    ensures OpenSlotList(now, TwoWeeksLater(now), env, busy, NestedSlots(now, env, busy))
  {
    var w := WalkOf(now, env, busy);
    var ivs := Run(w);
    var r := NestedSlots(now, env, busy);
    RunIsSound(w);
    forall i | 0 <= i < |ivs|
      ensures WholeSeconds(ivs[i]) && WireSlotOpen(now, TwoWeeksLater(now), env, busy, r[i])
    {
      OpenSlotOnWire(now, env, busy, ivs[i]);
    }
    assert forall i :: 0 <= i < |r| ==> r[i].start * SECOND == ivs[i].start;
  }

  /** Every open slot of the fortnight is among the records unless the cap
      was reached first. */
  lemma NestedSlotsComplete(now: int, env: BookingEnv, busy: seq<Interval>)
    requires WellFormedEnv(env)
    ensures ReturnsEveryOpenSlot(now, env, busy, NestedSlots(now, env, busy))
  {
    var w := WalkOf(now, env, busy);
    var ivs := Run(w);
    var r := NestedSlots(now, env, busy);
    RunIsComplete(w);
    assert FromWire(r) == ivs;
    if 0 < |r| {
      assert r[|r| - 1].start * SECOND == FromWire(r)[|r| - 1].start;
    }
  }

  /** The wire records keep every promise of the walk, and every open slot of
      the fortnight is among them unless the cap was reached first. */
  lemma NestedSlotsSpec(now: int, env: BookingEnv, busy: seq<Interval>)
    ensures WellFormedEnv(env) ==> OpenSlotList(now, TwoWeeksLater(now), env, busy, NestedSlots(now, env, busy))
    ensures WellFormedEnv(env) ==> ReturnsEveryOpenSlot(now, env, busy, NestedSlots(now, env, busy))
  {
    if WellFormedEnv(env) {
      NestedSlotsSound(now, env, busy);
      NestedSlotsComplete(now, env, busy);
    }
  }

  /** The demo site's slot effect. `None` is the simulated branch (no calendar
      in use); `Some(events)` is the calendar branch once the events arrived. */
  function DemoSiteSlots(now: int, env: BookingEnv, calendar: Option<seq<Event>>): (r: seq<Slot>)
    ensures WellFormedEnv(env) && calendar.None? ==> OpenSlotList(now, TwoWeeksLater(now), env, [], r)
    ensures WellFormedEnv(env) && calendar.Some? ==>
      OpenSlotList(now, TwoWeeksLater(now), env, ExtractBusy(calendar.value), r)
    ensures WellFormedEnv(env) && calendar.None? ==> ReturnsEveryOpenSlot(now, env, [], r)
    ensures WellFormedEnv(env) && calendar.Some? ==> ReturnsEveryOpenSlot(now, env, ExtractBusy(calendar.value), r)
  {
    var busy := if calendar.Some? then ExtractBusy(calendar.value) else [];
    NestedSlotsSpec(now, env, busy);
    NestedSlots(now, env, busy)
  }

  /** The simulated branch is the calendar branch run on a calendar without
      timed events: all-day and open-ended events never make a slot busy. */
  lemma SimulatedIsCalendarWithoutTimedEvents(now: int, env: BookingEnv, events: seq<Event>)
    requires forall i :: 0 <= i < |events| ==> !IsTimed(events[i])
    ensures DemoSiteSlots(now, env, None) == DemoSiteSlots(now, env, Some(events))
  {
  }

  /** The component demo's simulated branch. */
  function ComponentDemoSlots(now: int, env: BookingEnv): (r: seq<Slot>)
    ensures WellFormedEnv(env) ==> OpenSlotList(now, TwoWeeksLater(now), env, [], r)
    ensures WellFormedEnv(env) ==> ReturnsEveryOpenSlot(now, env, [], r)
  {
    NestedSlotsSpec(now, env, []);
    NestedSlots(now, env, [])
  }

  /** The creator-availability handler after its event listing returned. */
  function CreatorAvailableSlots(now: int, env: BookingEnv, events: seq<Event>): (r: seq<Slot>)
    ensures WellFormedEnv(env) ==> OpenSlotList(now, TwoWeeksLater(now), env, ExtractBusy(events), r)
    ensures WellFormedEnv(env) ==> ReturnsEveryOpenSlot(now, env, ExtractBusy(events), r)
    ensures WellFormedEnv(env) ==> forall i, j :: 0 <= i < |r| && 0 <= j < |events| && IsTimed(events[j]) ==>
      !Overlaps(Interval(r[i].start * SECOND, r[i].end * SECOND), TimedInterval(events[j]))
  {
    NestedSlotsSpec(now, env, ExtractBusy(events));
    NestedSlots(now, env, ExtractBusy(events))
  }
}
