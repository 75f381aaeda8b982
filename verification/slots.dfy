/** The slot records the generators hand to their callers: `{start, end}` in
    whole seconds since the epoch, plus the widget's optional `summary`. */
module Slots {
  import opened Wrappers
  import opened Clock

  datatype Slot = Slot(start: int, end: int, summary: Option<string>)

  /** Does an instant fall on a whole second? Every slot boundary does. */
  predicate WholeSeconds(iv: Interval) {
    iv.start % SECOND == 0 && iv.end % SECOND == 0
  }

  /** The `{ start: Math.floor(t / 1000), end: ... }` records of a list of
      slot intervals, in order. */
  function ToWire(ivs: seq<Interval>, summary: Option<string>): (r: seq<Slot>)
    ensures |r| == |ivs|
    ensures forall i :: 0 <= i < |r| ==> r[i].summary == summary
    ensures forall i :: 0 <= i < |r| && WholeSeconds(ivs[i]) ==>
      r[i].start * SECOND == ivs[i].start && r[i].end * SECOND == ivs[i].end
  {
    seq(|ivs|, i requires 0 <= i < |ivs| => Slot(Seconds(ivs[i].start), Seconds(ivs[i].end), summary))
  }

  /** Reads wire records back as millisecond intervals. */
  function FromWire(slots: seq<Slot>): (r: seq<Interval>)
    ensures |r| == |slots|
    ensures forall i :: 0 <= i < |r| ==> r[i] == Interval(slots[i].start * SECOND, slots[i].end * SECOND)
  {
    seq(|slots|, i requires 0 <= i < |slots| => Interval(slots[i].start * SECOND, slots[i].end * SECOND))
  }

  /** The conversion to seconds loses nothing for slots on whole seconds. */
  lemma WireRoundTrip(ivs: seq<Interval>, summary: Option<string>)
    requires forall i :: 0 <= i < |ivs| ==> WholeSeconds(ivs[i])
    ensures FromWire(ToWire(ivs, summary)) == ivs
  {
  }

  /** Slot boundaries on the half-hour grid are whole seconds. */
  lemma GridIsWholeSeconds(iv: Interval)
    requires iv.start % SLOT == 0 && iv.end == iv.start + SLOT
    ensures WholeSeconds(iv)
  {
    var q := iv.start / SLOT;
    DivMod(iv.start, SECOND, q * 1800, 0);
    DivMod(iv.end, SECOND, q * 1800 + 1800, 0);
  }
}
