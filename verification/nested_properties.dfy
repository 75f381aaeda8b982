/** What the nested walk promises: it emits exactly the first `maxSlots`
    open slots of the horizon, in ascending order, where an open slot is a
    half-hour of working time on an allowed weekday that starts after `now`,
    ends by the horizon and overlaps no busy interval. */
module NestedProperties {
  import opened Clock
  import opened Calendar
  import opened NestedWalk
  import opened NestedCandidates

  /** Working hours that stay inside one day, as every configuration of the
      call sites does. */
  predicate ValidHours(t: Template) {
    0 <= t.startHour && t.endHour <= 24
  }

  /** A half-hour candidate the walk visits: on the half-hour grid, inside
      working hours, on an allowed weekday, on a day whose cursor is not past
      the horizon. */
  predicate OnGrid(w: Walk, c: Interval) {
    && c.end == c.start + SLOT
    && c.start % SLOT == 0
    && w.template.startHour * HOUR <= c.start % DAY < w.template.endHour * HOUR
    && Weekday(c.start) in w.template.allowedDays
    && DayNumber(w.now) <= DayNumber(c.start)
    && DayCursor(w, DayNumber(c.start) - DayNumber(w.now)) <= w.horizon
  }

  /** An open slot: a visited candidate that the walk would keep. */
  predicate Open(w: Walk, c: Interval) {
    OnGrid(w, c) && Keeps(w, c) && c.end <= w.horizon
  }

  // ---------------------------------------------------------------------
  // The flat loop over any candidate list

  lemma {:induction false} FlatLoopSound(w: Walk, cands: seq<Interval>, acc: seq<Interval>)
    ensures var r := FlatLoop(w, cands, acc);
      && |acc| <= |r.slots| && r.slots[..|acc|] == acc
      && (forall i :: |acc| <= i < |r.slots| ==> r.slots[i] in cands && Keeps(w, r.slots[i]) && r.slots[i].end <= w.horizon)
    decreases |cands|
  {
    if |cands| > 0 {
      var p := Visit(w, cands[0], acc);
      if p.exit == Exhausted {
        FlatLoopSound(w, cands[1..], p.slots);
        var r := FlatLoop(w, cands[1..], p.slots);
        assert r.slots[..|acc|] == r.slots[..|p.slots|][..|acc|];
        forall i | |acc| <= i < |r.slots|
          ensures r.slots[i] in cands && Keeps(w, r.slots[i]) && r.slots[i].end <= w.horizon
        {
          if i >= |p.slots| {
            assert r.slots[i] in cands[1..];
          } else {
            assert r.slots[i] == p.slots[i];
          }
        }
      }
    }
  }

  lemma {:induction false} FlatLoopCap(w: Walk, cands: seq<Interval>, acc: seq<Interval>)
    ensures var r := FlatLoop(w, cands, acc);
      && (|acc| < w.template.maxSlots ==> |r.slots| <= w.template.maxSlots)
      && (r.exit == CapReached ==> |r.slots| >= w.template.maxSlots && |r.slots| > 0)
    decreases |cands|
  {
    if |cands| > 0 {
      var p := Visit(w, cands[0], acc);
      if p.exit == Exhausted {
        FlatLoopCap(w, cands[1..], p.slots);
      }
    }
  }

  lemma {:induction false} FlatLoopAscending(w: Walk, cands: seq<Interval>, acc: seq<Interval>)
    requires StrictlyAscending(cands) && StrictlyAscending(acc)
    requires forall i, j :: 0 <= i < |acc| && 0 <= j < |cands| ==> acc[i].start < cands[j].start
    ensures StrictlyAscending(FlatLoop(w, cands, acc).slots)
    decreases |cands|
  {
    if |cands| > 0 {
      var p := Visit(w, cands[0], acc);
      assert StrictlyAscending(p.slots);
      if p.exit == Exhausted {
        forall i, j | 0 <= i < |p.slots| && 0 <= j < |cands[1..]|
          ensures p.slots[i].start < cands[1..][j].start
        {
          assert cands[1..][j] == cands[j + 1];
          if i < |acc| {
            assert p.slots[i] == acc[i];
          } else {
            assert p.slots[i] == cands[0];
          }
        }
        FlatLoopAscending(w, cands[1..], p.slots);
      }
    }
  }

  /** A candidate the loop could keep is kept, unless the cap was reached
      before it. */
  lemma {:induction false} FlatLoopComplete(w: Walk, cands: seq<Interval>, acc: seq<Interval>, i: nat)
    requires StrictlyAscending(cands)
    requires forall j :: 0 <= j < |cands| ==> cands[j].end == cands[j].start + SLOT
    requires i < |cands| && Keeps(w, cands[i]) && cands[i].end <= w.horizon
    ensures var r := FlatLoop(w, cands, acc);
      cands[i] in r.slots || (r.exit == CapReached && |r.slots| > 0 && cands[i].start > r.slots[|r.slots| - 1].start)
    decreases |cands|
  {
    var r := FlatLoop(w, cands, acc);
    var p := Visit(w, cands[0], acc);
    if i > 0 {
      assert cands[0].start < cands[i].start;
    }
    assert p.exit != HorizonExceeded;
    if p.exit == Exhausted {
      var rest := cands[1..];
      assert r == FlatLoop(w, rest, p.slots);
      if i == 0 {
        FlatLoopSound(w, rest, p.slots);
        assert r.slots[..|p.slots|] == p.slots;
        assert r.slots[|acc|] == cands[0];
      } else {
        assert forall j :: 0 <= j < |rest| ==> rest[j] == cands[j + 1];
        assert rest[i - 1] == cands[i];
        FlatLoopComplete(w, rest, p.slots, i - 1);
      }
    } else {
      assert r.slots == acc + [cands[0]];
    }
  }

  // ---------------------------------------------------------------------
  // The candidate list

  /** Local midnight of day `k` of the walk. */
  function DayBase(w: Walk, k: nat): (b: int)
    ensures b == StartOfDay(w.now) + k * DAY
    ensures b % DAY == 0
  {
    StartOfDayShift(w.now, k);
    StartOfDay(DayCursor(w, k))
  }

  /** The clock fields of the candidate at hour `h`, minute `m` of day `k`. */
  lemma CandidateShape(w: Walk, k: nat, h: int, m: int)
    requires 0 <= h < 24 && (m == 0 || m == 30)
    ensures var c := Candidate(w, k, h, m);
      && c.start == DayBase(w, k) + h * HOUR + m * MINUTE
      && c.start % DAY == h * HOUR + m * MINUTE
      && c.start % SLOT == 0
      && DayNumber(c.start) == DayNumber(w.now) + k
      && Weekday(c.start) == Weekday(DayCursor(w, k))
  {
    var dc := DayNumber(DayCursor(w, k));
    var x := h * HOUR + m * MINUTE;
    StartOfDayShift(w.now, k);
    DivMod(dc * DAY + x, DAY, dc, x);
    DivMod(dc * DAY + x, SLOT, dc * 48 + 2 * h + (if m == 0 then 0 else 1), 0);
  }

  lemma {:induction false} MinuteCandidatesFacts(w: Walk, k: nat, h: int, m: nat)
    requires ValidHours(w.template) && w.template.startHour <= h < w.template.endHour
    requires m == 0 || m == 30 || m == 60
    ensures var cs := MinuteCandidates(w, k, h, m);
      && StrictlyAscending(cs)
      && (forall i :: 0 <= i < |cs| ==>
            && DayBase(w, k) + h * HOUR + m * MINUTE <= cs[i].start < DayBase(w, k) + (h + 1) * HOUR
            && OnGridOfDay(w, k, cs[i]))
    decreases 60 - m
  {
    if m < 60 {
      CandidateShape(w, k, h, m);
      MinuteCandidatesFacts(w, k, h, m + 30);
      var cs := MinuteCandidates(w, k, h, m);
      assert forall i :: 1 <= i < |cs| ==> cs[i] == MinuteCandidates(w, k, h, m + 30)[i - 1];
    }
  }

  /** The day-independent half of `OnGrid` for a candidate of day `k`. */
  predicate OnGridOfDay(w: Walk, k: nat, c: Interval) {
    && c.end == c.start + SLOT
    && c.start % SLOT == 0
    && w.template.startHour * HOUR <= c.start % DAY < w.template.endHour * HOUR
    && DayNumber(c.start) == DayNumber(w.now) + k
    && Weekday(c.start) == Weekday(DayCursor(w, k))
  }

  lemma AppendAscending(a: seq<Interval>, b: seq<Interval>, split: int)
    requires StrictlyAscending(a) && StrictlyAscending(b)
    requires forall i :: 0 <= i < |a| ==> a[i].start < split
    requires forall j :: 0 <= j < |b| ==> split <= b[j].start
    ensures StrictlyAscending(a + b)
  {
    var s := a + b;
    forall i, j | 0 <= i < j < |s|
      ensures s[i].start < s[j].start
    {
      if j < |a| {
      } else if i >= |a| {
        assert s[i] == b[i - |a|] && s[j] == b[j - |a|];
      } else {
        assert s[i] == a[i] && s[j] == b[j - |a|];
      }
    }
  }

  lemma {:induction false} HourCandidatesFacts(w: Walk, k: nat, h: int)
    requires ValidHours(w.template) && w.template.startHour <= h
    ensures var cs := HourCandidates(w, k, h);
      && StrictlyAscending(cs)
      && (forall i :: 0 <= i < |cs| ==>
            && DayBase(w, k) + h * HOUR <= cs[i].start < DayBase(w, k) + w.template.endHour * HOUR
            && OnGridOfDay(w, k, cs[i]))
    decreases w.template.endHour - h
  {
    if h < w.template.endHour {
      var a := MinuteCandidates(w, k, h, 0);
      var b := HourCandidates(w, k, h + 1);
      MinuteCandidatesFacts(w, k, h, 0);
      HourCandidatesFacts(w, k, h + 1);
      var base := DayBase(w, k);
      AppendAscending(a, b, base + (h + 1) * HOUR);
      var cs := a + b;
      forall i | 0 <= i < |cs|
        ensures base + h * HOUR <= cs[i].start < base + w.template.endHour * HOUR
        ensures OnGridOfDay(w, k, cs[i])
      {
        if i < |a| {
          assert cs[i] == a[i];
        } else {
          assert cs[i] == b[i - |a|];
        }
      }
    }
  }

  lemma {:induction false} DayCandidatesFacts(w: Walk, k: nat)
    requires ValidHours(w.template)
    ensures var cs := DayCandidates(w, k);
      && StrictlyAscending(cs)
      && (forall i :: 0 <= i < |cs| ==> DayBase(w, k) <= cs[i].start && OnGrid(w, cs[i]))
    decreases w.horizon - DayCursor(w, k)
  {
    if DayCursor(w, k) <= w.horizon {
      var a := if Weekday(DayCursor(w, k)) in w.template.allowedDays
        then HourCandidates(w, k, w.template.startHour) else [];
      var b := DayCandidates(w, k + 1);
      HourCandidatesFacts(w, k, w.template.startHour);
      DayCandidatesFacts(w, k + 1);
      AppendAscending(a, b, DayBase(w, k + 1));
      var cs := a + b;
      forall i | 0 <= i < |cs|
        ensures DayBase(w, k) <= cs[i].start && OnGrid(w, cs[i])
      {
        if i < |a| {
          var c := a[i];
          assert cs[i] == c;
          assert DayNumber(c.start) - DayNumber(w.now) == k;
        } else {
          assert cs[i] == b[i - |a|];
        }
      }
    }
  }

  lemma {:induction false} MinuteCandidatesContain(w: Walk, k: nat, h: int, m0: nat, m: int)
    requires m0 <= m < 60
    requires (m - m0) % 30 == 0
    ensures Candidate(w, k, h, m) in MinuteCandidates(w, k, h, m0)
    decreases 60 - m0
  {
    if m0 < m {
      MinuteCandidatesContain(w, k, h, m0 + 30, m);
    }
  }

  lemma {:induction false} HourCandidatesContain(w: Walk, k: nat, h0: int, h: int, m: int)
    requires h0 <= h < w.template.endHour
    requires m == 0 || m == 30
    ensures Candidate(w, k, h, m) in HourCandidates(w, k, h0)
    decreases w.template.endHour - h0
  {
    var a := MinuteCandidates(w, k, h0, 0);
    var b := HourCandidates(w, k, h0 + 1);
    assert HourCandidates(w, k, h0) == a + b;
    if h0 == h {
      MinuteCandidatesContain(w, k, h, 0, m);
      assert Candidate(w, k, h, m) in a;
    } else {
      HourCandidatesContain(w, k, h0 + 1, h, m);
      assert Candidate(w, k, h, m) in b;
    }
  }

  /** An instant on the half-hour grid is a whole hour or half hour of its day. */
  lemma GridTimeOfDay(t: int)
    requires t % SLOT == 0
    ensures var x := t % DAY;
      && t == DayNumber(t) * DAY + x
      && x == (x / HOUR) * HOUR + ((x % HOUR) / MINUTE) * MINUTE
      && ((x % HOUR) / MINUTE == 0 || (x % HOUR) / MINUTE == 30)
      && HourOf(t) == x / HOUR
      && MinuteOf(t) == (x % HOUR) / MINUTE
      && t % MINUTE == 0
  {
    var n := t / SLOT;
    var d := n / 48;
    var e := n % 48;
    DivMod(t, DAY, d, e * SLOT);
    DivMod(e * SLOT, HOUR, e / 2, (e % 2) * SLOT);
    DivMod((e % 2) * SLOT, MINUTE, (e % 2) * 30, 0);
    DivMod(t, HOUR, d * 24 + e / 2, (e % 2) * SLOT);
    DivMod(t, MINUTE, n * 30, 0);
  }

  /** A grid slot of day `k` is the candidate of its own hour and minute. */
  lemma GridSlotIsCandidate(w: Walk, k: nat, c: Interval)
    requires OnGrid(w, c)
    requires DayNumber(c.start) == DayNumber(w.now) + k
    ensures var x := c.start % DAY;
      var h := x / HOUR;
      var m := (x % HOUR) / MINUTE;
      && w.template.startHour <= h < w.template.endHour
      && (m == 0 || m == 30)
      && Candidate(w, k, h, m) == c
  {
    var x := c.start % DAY;
    GridTimeOfDay(c.start);
    DivMod(x, HOUR, x / HOUR, x % HOUR);
    StartOfDayShift(w.now, k);
  }

  /** Every grid slot of a day at or after day `k0` is listed. */
  lemma {:induction false} DayCandidatesContain(w: Walk, k0: nat, c: Interval)
    requires ValidHours(w.template)
    requires OnGrid(w, c)
    requires DayNumber(c.start) - DayNumber(w.now) >= k0
    ensures c in DayCandidates(w, k0)
    decreases w.horizon - DayCursor(w, k0)
  {
    var n := DayNumber(c.start) - DayNumber(w.now);
    assert DayCursor(w, k0) <= DayCursor(w, n) <= w.horizon;
    var today := if Weekday(DayCursor(w, k0)) in w.template.allowedDays
      then HourCandidates(w, k0, w.template.startHour) else [];
    assert DayCandidates(w, k0) == today + DayCandidates(w, k0 + 1);
    if n == k0 {
      var x := c.start % DAY;
      GridSlotIsCandidate(w, k0, c);
      StartOfDayShift(w.now, k0);
      assert Weekday(DayCursor(w, k0)) == Weekday(c.start);
      HourCandidatesContain(w, k0, w.template.startHour, x / HOUR, (x % HOUR) / MINUTE);
      assert c in today;
    } else {
      DayCandidatesContain(w, k0 + 1, c);
    }
  }

  // ---------------------------------------------------------------------
  // The walk

  /** Every slot the walk returns is open, the list is strictly ascending,
      and it respects the cap. */
  lemma RunIsSound(w: Walk)
    requires ValidHours(w.template)
    ensures var r := Run(w);
      && StrictlyAscending(r)
      && (forall i :: 0 <= i < |r| ==> Open(w, r[i]))
      && (w.template.maxSlots >= 1 ==> |r| <= w.template.maxSlots)
  {
    WalkIsFlat(w);
    var cands := Candidates(w);
    DayCandidatesFacts(w, 0);
    FlatLoopSound(w, cands, []);
    FlatLoopCap(w, cands, []);
    FlatLoopAscending(w, cands, []);
    var r := FlatLoop(w, cands, []).slots;
    forall i | 0 <= i < |r|
      ensures Open(w, r[i])
    {
      var j :| 0 <= j < |cands| && cands[j] == r[i];
    }
  }

  /** One open slot is returned unless the cap was reached before it. */
  lemma RunReturnsOpenSlot(w: Walk, c: Interval)
    requires ValidHours(w.template) && Open(w, c)
    ensures var r := Run(w);
      c in r || (|r| >= w.template.maxSlots && |r| > 0 && c.start > r[|r| - 1].start)
  {
    var cands := Candidates(w);
    var r := FlatLoop(w, cands, []);
    DayCandidatesFacts(w, 0);
    assert forall i :: 0 <= i < |cands| ==> cands[i].end == cands[i].start + SLOT;
    DayCandidatesContain(w, 0, c);
    var j :| 0 <= j < |cands| && cands[j] == c;
    FlatLoopComplete(w, cands, [], j);
    FlatLoopCap(w, cands, []);
    assert c in r.slots || (|r.slots| >= w.template.maxSlots && |r.slots| > 0 && c.start > r.slots[|r.slots| - 1].start);
    WalkIsFlat(w);
  }

  /** Every open slot is returned unless the cap was reached before it. */
  lemma RunIsComplete(w: Walk)
    requires ValidHours(w.template)
    ensures var r := Run(w);
      forall c :: Open(w, c) ==>
        c in r || (|r| >= w.template.maxSlots && |r| > 0 && c.start > r[|r| - 1].start)
  {
    forall c | Open(w, c)
      ensures var r := Run(w);
        c in r || (|r| >= w.template.maxSlots && |r| > 0 && c.start > r[|r| - 1].start)
    {
      RunReturnsOpenSlot(w, c);
    }
  }

  /** The nested walk returns exactly the first `maxSlots` open slots, in
      ascending order: every slot it returns is open, and every open slot is
      returned unless the cap was reached before it. */
  lemma RunIsFirstOpenSlots(w: Walk)
    requires ValidHours(w.template)
    ensures var r := Run(w);
      && StrictlyAscending(r)
      && (forall i :: 0 <= i < |r| ==> Open(w, r[i]))
      && (w.template.maxSlots >= 1 ==> |r| <= w.template.maxSlots)
      && (forall c :: Open(w, c) ==>
            c in r || (|r| >= w.template.maxSlots && |r| > 0 && c.start > r[|r| - 1].start))
  {
    RunIsSound(w);
    RunIsComplete(w);
  }

  /** The clock fields of a grid slot: hour in working hours, minute 0 or 30,
      no seconds. */
  lemma GridClockFields(w: Walk, c: Interval)
    requires OnGrid(w, c)
    ensures w.template.startHour <= HourOf(c.start) < w.template.endHour
    ensures MinuteOf(c.start) == 0 || MinuteOf(c.start) == 30
    ensures c.start % MINUTE == 0
  {
    GridTimeOfDay(c.start);
    var x := c.start % DAY;
    DivMod(x, HOUR, x / HOUR, x % HOUR);
  }
}
