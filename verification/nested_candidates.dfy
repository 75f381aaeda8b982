/** A reference reading of the nested walk: first list every candidate the
    three loops would visit, in visiting order, then run one flat loop over
    that list with the same step `Visit`. The two stop conditions become
    plain truncations of one list, and `WalkIsFlat` proves that the nested
    loops compute exactly this. */
module NestedCandidates {
  import opened Clock
  import opened NestedWalk

  function MinuteCandidates(w: Walk, k: nat, h: int, m: nat): seq<Interval>
    decreases 60 - m
  {
    if m >= 60 then [] else [Candidate(w, k, h, m)] + MinuteCandidates(w, k, h, m + 30)
  }

  function HourCandidates(w: Walk, k: nat, h: int): seq<Interval>
    decreases w.template.endHour - h
  {
    if h >= w.template.endHour then [] else MinuteCandidates(w, k, h, 0) + HourCandidates(w, k, h + 1)
  }

  function DayCandidates(w: Walk, k: nat): seq<Interval>
    decreases w.horizon - DayCursor(w, k)
  {
    if DayCursor(w, k) > w.horizon then []
    else
      (if Weekday(DayCursor(w, k)) in w.template.allowedDays then HourCandidates(w, k, w.template.startHour) else [])
      + DayCandidates(w, k + 1)
  }

  /** Every candidate of the walk, in visiting order. */
  function Candidates(w: Walk): seq<Interval> {
    DayCandidates(w, 0)
  }

  /** One loop over a candidate list with the walk's step. */
  function FlatLoop(w: Walk, cands: seq<Interval>, acc: seq<Interval>): Progress
    decreases |cands|
  {
    if |cands| == 0 then Progress(acc, Exhausted)
    else
      var p := Visit(w, cands[0], acc);
      if p.exit != Exhausted then p else FlatLoop(w, cands[1..], p.slots)
  }

  /** Continue a loop with `rest` unless it already left through `break outer`. */
  function Then(w: Walk, p: Progress, rest: seq<Interval>): Progress {
    if p.exit != Exhausted then p else FlatLoop(w, rest, p.slots)
  }

  /** Looping over `a + b` is looping over `a`, then over `b` if no stop fired. */
  lemma {:induction false} FlatLoopAppend(w: Walk, a: seq<Interval>, b: seq<Interval>, acc: seq<Interval>)
    ensures FlatLoop(w, a + b, acc) == Then(w, FlatLoop(w, a, acc), b)
    decreases |a|
  {
    if |a| == 0 {
      assert a + b == b;
    } else {
      assert (a + b)[0] == a[0];
      assert (a + b)[1..] == a[1..] + b;
      var p := Visit(w, a[0], acc);
      if p.exit == Exhausted {
        FlatLoopAppend(w, a[1..], b, p.slots);
      }
    }
  }

  lemma {:induction false} MinuteLoopIsFlat(w: Walk, k: nat, h: int, m: nat, acc: seq<Interval>)
    ensures MinuteLoop(w, k, h, m, acc) == FlatLoop(w, MinuteCandidates(w, k, h, m), acc)
    decreases 60 - m
  {
    if m < 60 {
      var cs := MinuteCandidates(w, k, h, m);
      assert cs[0] == Candidate(w, k, h, m);
      assert cs[1..] == MinuteCandidates(w, k, h, m + 30);
      var p := Visit(w, Candidate(w, k, h, m), acc);
      if p.exit == Exhausted {
        MinuteLoopIsFlat(w, k, h, m + 30, p.slots);
      }
    }
  }

  lemma {:induction false} HourLoopIsFlat(w: Walk, k: nat, h: int, acc: seq<Interval>)
    ensures HourLoop(w, k, h, acc) == FlatLoop(w, HourCandidates(w, k, h), acc)
    decreases w.template.endHour - h
  {
    if h < w.template.endHour {
      var a := MinuteCandidates(w, k, h, 0);
      var b := HourCandidates(w, k, h + 1);
      assert HourCandidates(w, k, h) == a + b;
      MinuteLoopIsFlat(w, k, h, 0, acc);
      FlatLoopAppend(w, a, b, acc);
      var p := MinuteLoop(w, k, h, 0, acc);
      assert FlatLoop(w, a + b, acc) == Then(w, p, b);
      if p.exit == Exhausted {
        HourLoopIsFlat(w, k, h + 1, p.slots);
        assert HourLoop(w, k, h, acc) == HourLoop(w, k, h + 1, p.slots);
      } else {
        assert HourLoop(w, k, h, acc) == p;
      }
    }
  }

  lemma {:induction false} DayLoopIsFlat(w: Walk, k: nat, acc: seq<Interval>)
    ensures DayLoop(w, k, acc) == FlatLoop(w, DayCandidates(w, k), acc).slots
    decreases w.horizon - DayCursor(w, k)
  {
    if DayCursor(w, k) <= w.horizon {
      var today := if Weekday(DayCursor(w, k)) in w.template.allowedDays
        then HourCandidates(w, k, w.template.startHour) else [];
      FlatLoopAppend(w, today, DayCandidates(w, k + 1), acc);
      if Weekday(DayCursor(w, k)) !in w.template.allowedDays {
        DayLoopIsFlat(w, k + 1, acc);
      } else {
        HourLoopIsFlat(w, k, w.template.startHour, acc);
        var p := HourLoop(w, k, w.template.startHour, acc);
        if p.exit == Exhausted {
          DayLoopIsFlat(w, k + 1, p.slots);
        }
      }
    }
  }

  /** The nested loops with their labelled break compute the flat reference. */
  lemma WalkIsFlat(w: Walk)
    ensures Run(w) == FlatLoop(w, Candidates(w), []).slots
  {
    DayLoopIsFlat(w, 0, []);
  }
}
