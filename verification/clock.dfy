/** Instants, calendar days and half-open intervals.

    An instant is an integer number of milliseconds since the epoch, the value
    JavaScript's `getTime()` returns and compares. The venue clock is modelled
    with fixed 24-hour days at UTC offset zero, so local midnight is a multiple
    of `DAY` and day 0 (1970-01-01) is a Thursday. Division and remainder by a
    positive constant are Dafny's Euclidean operators, which floor, as the JS
    date fields and `Math.floor` do. */
module Clock {

  const SECOND: int := 1_000
  const MINUTE: int := 60_000
  const HOUR: int := 3_600_000
  const DAY: int := 86_400_000
  /** Every generator in the system emits 30-minute slots. */
  const SLOT: int := 1_800_000

  /** Days since the epoch of the calendar day holding `t`. */
  function DayNumber(t: int): int { t / DAY }

  /** Local midnight of the day holding `t`. */
  function StartOfDay(t: int): (r: int)
    ensures r <= t < r + DAY
    ensures r % DAY == 0
  {
    DayNumber(t) * DAY
  }

  /** `Date.getDay()`: 0 is Sunday. */
  function Weekday(t: int): (r: int)
    ensures 0 <= r < 7
  {
    (DayNumber(t) + 4) % 7
  }

  /** `Date.getHours()`. */
  function HourOf(t: int): (r: int)
    ensures 0 <= r < 24
  {
    (t % DAY) / HOUR
  }

  /** `Date.getMinutes()`. */
  function MinuteOf(t: int): (r: int)
    ensures 0 <= r < 60
  {
    (t % HOUR) / MINUTE
  }

  /** `Math.floor(ms / 1000)`: the wire representation of an instant. */
  function Seconds(ms: int): int { ms / SECOND }

  /** A half-open interval `[start, end)` of instants. */
  datatype Interval = Interval(start: int, end: int)

  /** The strict intersection test of every generator: intervals that only
      touch at an end point do not overlap. */
  predicate Overlaps(a: Interval, b: Interval) {
    a.start < b.end && a.end > b.start
  }

  predicate StrictlyAscending(s: seq<Interval>) {
    forall i, j :: 0 <= i < j < |s| ==> s[i].start < s[j].start
  }

  /** Floor division and remainder are determined by any decomposition
      `x == q * d + r` with `0 <= r < d`. */
  lemma DivMod(x: int, d: int, q: int, r: int)
    requires d > 0 && 0 <= r < d && x == q * d + r
    ensures x / d == q && x % d == r
  {
    var q' := x / d;
    var r' := x % d;
    assert (q - q') * d == r' - r;
    if q > q' {
      MulAtLeast(q - q', d);
    } else if q < q' {
      MulAtLeast(q' - q, d);
    }
  }

  lemma MulAtLeast(a: int, d: int)
    requires a >= 1 && d > 0
    ensures a * d >= d
  {
    assert a * d == (a - 1) * d + d;
    assert (a - 1) * d >= 0;
  }

  /** Shifting by whole days moves local midnight by the same amount. */
  lemma StartOfDayShift(t: int, k: int)
    ensures StartOfDay(t + k * DAY) == StartOfDay(t) + k * DAY
    ensures DayNumber(t + k * DAY) == DayNumber(t) + k
  {
    var q := t / DAY;
    var r := t % DAY;
    DivMod(t + k * DAY, DAY, q + k, r);
  }

  /** The clock fields of an instant `x` milliseconds after a local midnight. */
  lemma TimeOfDay(base: int, x: int)
    requires base % DAY == 0
    requires 0 <= x < DAY
    ensures DayNumber(base + x) == base / DAY
    ensures StartOfDay(base + x) == base
    ensures HourOf(base + x) == x / HOUR
    ensures MinuteOf(base + x) == (x % HOUR) / MINUTE
  {
    var q := base / DAY;
    DivMod(base + x, DAY, q, x);
    var hq := x / HOUR;
    DivMod(base + x, HOUR, q * 24 + hq, x % HOUR);
  }
}
