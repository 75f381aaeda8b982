/** The nested day / hour / half-hour walk that three call sites repeat:
    days from `now` while the day cursor is not past the horizon, hours
    `startHour .. endHour-1`, minutes 0 and 30. A candidate ending after the
    horizon stops the whole walk, a kept candidate that fills the cap stops it
    too, and a candidate is kept when it starts strictly after `now` and
    overlaps no busy interval.

    The three loops are three functions; the labelled `break outer` is an
    `Exit` value other than `Exhausted` that each enclosing loop returns at
    once. The body of the innermost loop is `Visit`. */
module NestedWalk {
  import opened Clock
  import opened Calendar

  /** Working hours, allowed weekdays (0 = Sunday) and the slot cap. */
  datatype Template = Template(startHour: int, endHour: int, allowedDays: set<int>, maxSlots: int)

  /** Everything one walk depends on. */
  datatype Walk = Walk(now: int, horizon: int, template: Template, busy: seq<Interval>)

  /** How a loop finished: ran out of iterations, or left through `break outer`. */
  datatype Exit = Exhausted | HorizonExceeded | CapReached

  datatype Progress = Progress(slots: seq<Interval>, exit: Exit)

  /** The loop variable `d` after `k` steps of `d.setDate(d.getDate() + 1)`. */
  function DayCursor(w: Walk, k: nat): int {
    w.now + k * DAY
  }

  /** `new Date(d.getFullYear(), d.getMonth(), d.getDate(), h, m, 0, 0)` and
      the instant 30 minutes later, for the cursor of day `k`. */
  function Candidate(w: Walk, k: nat, h: int, m: int): (c: Interval)
    ensures c.end == c.start + SLOT
  {
    var start := StartOfDay(DayCursor(w, k)) + h * HOUR + m * MINUTE;
    Interval(start, start + SLOT)
  }

  /** A candidate inside the horizon is kept when it overlaps no busy pair
      and starts strictly after `now`. */
  predicate Keeps(w: Walk, c: Interval) {
    !OverlapsAny(c, w.busy) && c.start > w.now
  }

  /** `slots` is `acc` followed only by candidates the walk keeps inside the
      horizon. */
  predicate Extends(w: Walk, acc: seq<Interval>, slots: seq<Interval>) {
    && |acc| <= |slots| && slots[..|acc|] == acc
    && forall i :: |acc| <= i < |slots| ==> Keeps(w, slots[i]) && slots[i].end <= w.horizon
  }

  lemma ExtendsTrans(w: Walk, a: seq<Interval>, b: seq<Interval>, c: seq<Interval>)
    requires Extends(w, a, b) && Extends(w, b, c)
    ensures Extends(w, a, c)
  {
    assert c[..|a|] == c[..|b|][..|a|];
    forall i | |a| <= i < |c|
      ensures Keeps(w, c[i]) && c[i].end <= w.horizon
    {
      if i < |b| {
        assert c[i] == c[..|b|][i];
      }
    }
  }

  /** The body of the innermost loop for one candidate. `Exhausted` means
      "carry on with the next candidate". At most the candidate itself is
      added, exactly when it lies inside the horizon and is kept, and the cap
      is reached exactly when that addition fills it. */
  function Visit(w: Walk, c: Interval, acc: seq<Interval>): (p: Progress)
    ensures p.exit == HorizonExceeded <==> c.end > w.horizon
    ensures Extends(w, acc, p.slots) && |p.slots| <= |acc| + 1
    ensures |p.slots| > |acc| <==> c.end <= w.horizon && Keeps(w, c)
    ensures |p.slots| > |acc| ==> p.slots[|acc|] == c
    ensures p.exit == CapReached <==> |p.slots| > |acc| && |p.slots| >= w.template.maxSlots
  {
    if c.end > w.horizon then Progress(acc, HorizonExceeded)
    else if Keeps(w, c) then
      var acc' := acc + [c];
      assert acc'[..|acc|] == acc;
      if |acc'| >= w.template.maxSlots then Progress(acc', CapReached) else Progress(acc', Exhausted)
    else Progress(acc, Exhausted)
  }

  /** `for (let m = ...; m < 60; m += 30)` of hour `h` on day `k`. It only
      appends kept slots, never passes the cap, and stops early with
      `CapReached` only once the cap is full. */
  function MinuteLoop(w: Walk, k: nat, h: int, m: nat, acc: seq<Interval>): (p: Progress)
    ensures Extends(w, acc, p.slots)
    ensures |acc| < w.template.maxSlots ==> |p.slots| <= w.template.maxSlots
    ensures |acc| < w.template.maxSlots && p.exit == Exhausted ==> |p.slots| < w.template.maxSlots
    ensures p.exit == CapReached ==> |p.slots| >= w.template.maxSlots
    decreases 60 - m
  {
    if m >= 60 then Progress(acc, Exhausted)
    else
      var p := Visit(w, Candidate(w, k, h, m), acc);
      if p.exit != Exhausted then p
      else
        var q := MinuteLoop(w, k, h, m + 30, p.slots);
        ExtendsTrans(w, acc, p.slots, q.slots);
        q
  }

  /** `for (let h = ...; h < END_HOUR; h++)` on day `k`, with the same
      promises as the minute loop. */
  function HourLoop(w: Walk, k: nat, h: int, acc: seq<Interval>): (p: Progress)
    ensures Extends(w, acc, p.slots)
    ensures |acc| < w.template.maxSlots ==> |p.slots| <= w.template.maxSlots
    ensures |acc| < w.template.maxSlots && p.exit == Exhausted ==> |p.slots| < w.template.maxSlots
    ensures p.exit == CapReached ==> |p.slots| >= w.template.maxSlots
    decreases w.template.endHour - h
  {
    if h >= w.template.endHour then Progress(acc, Exhausted)
    else
      var p := MinuteLoop(w, k, h, 0, acc);
      if p.exit != Exhausted then p
      else
        var q := HourLoop(w, k, h + 1, p.slots);
        ExtendsTrans(w, acc, p.slots, q.slots);
        q
  }

  /** `outer: for (let d = new Date(now); d <= horizon; ...)`, skipping days
      whose weekday is not allowed. It only appends kept slots and never
      passes the cap. */
  function DayLoop(w: Walk, k: nat, acc: seq<Interval>): (r: seq<Interval>)
    ensures Extends(w, acc, r)
    ensures |acc| < w.template.maxSlots ==> |r| <= w.template.maxSlots
    decreases w.horizon - DayCursor(w, k)
  {
    if DayCursor(w, k) > w.horizon then acc
    else if Weekday(DayCursor(w, k)) !in w.template.allowedDays then DayLoop(w, k + 1, acc)
    else
      var p := HourLoop(w, k, w.template.startHour, acc);
      if p.exit != Exhausted then p.slots
      else
        var r := DayLoop(w, k + 1, p.slots);
        ExtendsTrans(w, acc, p.slots, r);
        r
  }

  /** The whole walk, starting from an empty slot list: every slot it
      returns is kept and ends by the horizon, and a cap of at least one is
      never passed. */
  function Run(w: Walk): (r: seq<Interval>)
    ensures forall i :: 0 <= i < |r| ==> Keeps(w, r[i]) && r[i].end <= w.horizon
    ensures w.template.maxSlots >= 1 ==> |r| <= w.template.maxSlots
  {
    DayLoop(w, 0, [])
  }
}
