/**
 * The slot generator behind the page's "Select Time Slot" box: starting at
 * a start time it emits an "HH:MM" label every `interval` minutes for as
 * long as the running time has not passed the end time, so both ends of the
 * window are included when they lie on the grid.
 *
 * A time of day is the number of minutes since midnight. The running time
 * is a plain `int`: the source adds the interval to a full datetime, which
 * may pass midnight, and then the loop stops when the end time lies on the
 * same day as the start. An end time anchored to the next day (the date is
 * read twice and midnight can fall in between) and a step so large that it
 * would leave the range of datetime (beyond the year 9999) are not
 * covered.
 */
module TimeSlots {
  import opened Wrappers
  import opened Text

  const MinutesPerDay := 24 * 60

  /** A time of day with minute resolution, 00:00 to 23:59. */
  type Minute = m: int | 0 <= m < MinutesPerDay

  /** The interval used when the caller gives none. */
  const DefaultInterval := 30

  /** `datetime.time(hour, minute)` with whole minutes. */
  function TimeOf(hour: nat, minute: nat): (t: Minute)
    requires hour < 24 && minute < 60
    ensures t / 60 == hour && t % 60 == minute
  {
    hour * 60 + minute
  }

  /**
   * Reads a label of the form "HH:MM" (two digits, a colon, two digits,
   * hour below 24, minute below 60); anything else is `None`.
   */
  function ParseLabel(s: string): (r: Option<int>)
    ensures r.Some? ==> 0 <= r.value < MinutesPerDay
  {
    if |s| == 5 && s[2] == ':' && AllDigits(s[..2]) && AllDigits(s[3..]) then
      var hour := DecimalValue(s[..2]);
      var minute := DecimalValue(s[3..]);
      if hour < 24 && minute < 60 then Some(hour * 60 + minute) else None
    else
      None
  }

  /** `strftime("%H:%M")` of a time of day: zero-padded hour, a colon, zero-padded minute. */
  function Label(m: Minute): (s: string)
    ensures |s| == 5
  {
    Pad2(m / 60) + ":" + Pad2(m % 60)
  }

  /**
   * Every label has the "HH:MM" shape (two digits, a colon, two digits, the
   * hour within 00-23 and the minute within 00-59) and reads back as the
   * time it was made from.
   */
  lemma LabelRoundTrip(m: Minute)
    ensures Label(m)[2] == ':' && AllDigits(Label(m)[..2]) && AllDigits(Label(m)[3..])
    ensures ParseLabel(Label(m)) == Some(m)
  {
    var s := Label(m);
    assert s[..2] == Pad2(m / 60) && s[3..] == Pad2(m % 60);
  }

  /** Every string `ParseLabel` accepts is the label of the time it reads. */
  lemma ParsedLabelIsLabel(s: string, m: Minute)
    requires ParseLabel(s) == Some(m)
    ensures Label(m) == s
  {
    var hh, mm := s[..2], s[3..];
    Pad2OfValue(hh);
    Pad2OfValue(mm);
    assert m / 60 == DecimalValue(hh) && m % 60 == DecimalValue(mm);
    assert s == hh + ":" + mm;
  }

  /**
   * The running times the loop visits: from `current`, while it has not
   * passed `endTime`, stepping by `interval`.
   */
  function Grid(current: int, endTime: int, interval: int): seq<int>
    requires interval > 0 || current > endTime
    decreases if current > endTime then 0 else endTime - current + 1
  {
    if current > endTime then [] else [current] + Grid(current + interval, endTime, interval)
  }

  /**
   * The grid is empty when `current` is already later than `endTime`;
   * otherwise it starts at `current`. It strictly rises, never passes
   * `endTime`, and one more step from its last element would.
   */
  lemma {:induction false} GridShape(current: int, endTime: int, interval: int)
    requires interval > 0 || current > endTime
    ensures current > endTime ==> Grid(current, endTime, interval) == []
    ensures current <= endTime ==>
      |Grid(current, endTime, interval)| > 0 && Grid(current, endTime, interval)[0] == current
    ensures forall k :: 0 <= k < |Grid(current, endTime, interval)| ==>
      current <= Grid(current, endTime, interval)[k] <= endTime
    ensures forall j, k :: 0 <= j < k < |Grid(current, endTime, interval)| ==>
      Grid(current, endTime, interval)[j] < Grid(current, endTime, interval)[k]
    ensures |Grid(current, endTime, interval)| > 0 ==>
      Grid(current, endTime, interval)[|Grid(current, endTime, interval)| - 1] + interval > endTime
    decreases if current > endTime then 0 else endTime - current + 1
  {
    if current <= endTime {
      var g, rest := Grid(current, endTime, interval), Grid(current + interval, endTime, interval);
      GridShape(current + interval, endTime, interval);
      assert g == [current] + rest;
      forall k | 0 < k < |g|
        ensures g[k] == rest[k - 1] && current < g[k]
      {
      }
    }
  }

  /** The label of each time in `g`, in order. */
  function Labels(g: seq<int>): (r: seq<string>)
    requires forall k :: 0 <= k < |g| ==> 0 <= g[k] < MinutesPerDay
  {
    seq(|g|, k requires 0 <= k < |g| => Label(g[k]))
  }

  /** What `generate_time_slots(start_time, end_time, interval_minutes)` returns. */
  function TimeSlots(startTime: Minute, endTime: Minute, interval: int): (r: seq<string>)
    requires interval > 0 || startTime > endTime
    ensures startTime > endTime ==> r == []
    ensures startTime <= endTime ==> |r| > 0 && r[0] == Label(startTime)
  {
    GridShape(startTime, endTime, interval);
    Labels(Grid(startTime, endTime, interval))
  }

  /**
   * `generate_time_slots`: a loop that appends the label of the running
   * time and advances it by `interval` until it passes `endTime`. With a
   * positive interval it always stops; with zero or a negative one it never
   * returns normally once it has started, which is why the precondition
   * allows those intervals only when `startTime` is later than `endTime`.
   */
  method GenerateTimeSlots(startTime: Minute, endTime: Minute, interval: int)
      returns (slots: seq<string>)
    requires interval > 0 || startTime > endTime
    ensures slots == TimeSlots(startTime, endTime, interval)
  {
    slots := [];
    var current: int := startTime;
    ghost var visited: seq<int> := [];
    while current <= endTime
      invariant startTime <= current
      invariant interval > 0 || current > endTime
      invariant visited + Grid(current, endTime, interval) == Grid(startTime, endTime, interval)
      invariant forall k :: 0 <= k < |visited| ==> 0 <= visited[k] <= endTime
      invariant |slots| == |visited|
      invariant forall k :: 0 <= k < |slots| ==> slots[k] == Label(visited[k])
      decreases endTime - current
    {
      assert Grid(current, endTime, interval) == [current] + Grid(current + interval, endTime, interval);
      slots := slots + [Label(current)];
      ghost var before := visited;
      visited := visited + [current];
      assert before + Grid(current, endTime, interval) == visited + Grid(current + interval, endTime, interval);
      current := current + interval;
    }
  }

  /** The element at position `k` of the grid is `k` intervals after its start. */
  lemma {:induction false} GridAt(current: int, endTime: int, interval: int, k: nat)
    requires interval > 0
    requires k < |Grid(current, endTime, interval)|
    ensures Grid(current, endTime, interval)[k] == current + k * interval
    decreases k
  {
    if k > 0 {
      var rest := Grid(current + interval, endTime, interval);
      assert Grid(current, endTime, interval) == [current] + rest;
      GridAt(current + interval, endTime, interval, k - 1);
      assert rest[k - 1] == current + interval + (k - 1) * interval;
      assert (k - 1) * interval + interval == k * interval;
    }
  }

  /** Consecutive grid times differ by exactly one interval. */
  lemma GridStep(current: int, endTime: int, interval: int, k: nat)
    requires interval > 0
    requires k + 1 < |Grid(current, endTime, interval)|
    ensures Grid(current, endTime, interval)[k + 1] == Grid(current, endTime, interval)[k] + interval
  {
    GridAt(current, endTime, interval, k);
    GridAt(current, endTime, interval, k + 1);
    assert (k + 1) * interval == k * interval + interval;
  }

  /** `x / d == q` exactly when `q * d <= x < (q + 1) * d`. */
  lemma QuotientUnique(x: int, d: int, q: int)
    requires d > 0 && q * d <= x < (q + 1) * d
    ensures x / d == q
  {
    var p, r := x / d, x % d;
    assert x == p * d + r && 0 <= r < d;
    if p < q {
      assert (p + 1) * d == p * d + d;
      MulMonotone(p + 1, q, d);
    } else if p > q {
      assert (q + 1) * d == q * d + d;
      MulMonotone(q + 1, p, d);
    }
  }

  lemma MulMonotone(a: int, b: int, d: int)
    requires a <= b && d > 0
    ensures a * d <= b * d
  {
    assert b * d - a * d == (b - a) * d;
  }

  /** With a positive interval and a window that is not empty, the number of slots. */
  lemma GridLength(current: int, endTime: int, interval: int)
    requires interval > 0 && current <= endTime
    ensures |Grid(current, endTime, interval)| == (endTime - current) / interval + 1
  {
    var g := Grid(current, endTime, interval);
    var n := |g|;
    GridShape(current, endTime, interval);
    GridAt(current, endTime, interval, n - 1);
    assert (n - 1) * interval + interval == n * interval;
    assert (n - 1) * interval <= endTime - current < n * interval;
    QuotientUnique(endTime - current, interval, n - 1);
  }

  /**
   * The slots of a window: empty when the start is later than the end;
   * otherwise `(end - start) / interval + 1` labels, the k-th of which reads
   * back as `start + k * interval`, so the first is the start, they rise by
   * exactly one interval, and the last lies within one interval of the end.
   */
  lemma TimeSlotsShape(startTime: Minute, endTime: Minute, interval: int)
    requires interval > 0 || startTime > endTime
    ensures startTime > endTime ==> TimeSlots(startTime, endTime, interval) == []
    ensures startTime <= endTime ==>
      |TimeSlots(startTime, endTime, interval)| == (endTime - startTime) / interval + 1
    ensures forall k :: 0 <= k < |TimeSlots(startTime, endTime, interval)| ==>
      ParseLabel(TimeSlots(startTime, endTime, interval)[k]) == Some(startTime + k * interval)
  {
    var g := Grid(startTime, endTime, interval);
    if startTime <= endTime {
      GridLength(startTime, endTime, interval);
      GridShape(startTime, endTime, interval);
      forall k | 0 <= k < |g|
        ensures ParseLabel(Labels(g)[k]) == Some(startTime + k * interval)
      {
        GridAt(startTime, endTime, interval, k);
        LabelRoundTrip(g[k]);
      }
    }
  }

  /**
   * The page's own call, 08:30 to 21:00 every 30 minutes: exactly 26 slots,
   * half an hour apart, from "08:30" to "21:00".
   */
  lemma OpeningHoursSlots()
    ensures |TimeSlots(TimeOf(8, 30), TimeOf(21, 0), DefaultInterval)| == 26
    ensures TimeSlots(TimeOf(8, 30), TimeOf(21, 0), DefaultInterval)[0] == "08:30"
    ensures TimeSlots(TimeOf(8, 30), TimeOf(21, 0), DefaultInterval)[25] == "21:00"
    ensures forall k :: 0 <= k < 26 ==>
      ParseLabel(TimeSlots(TimeOf(8, 30), TimeOf(21, 0), DefaultInterval)[k]) == Some(510 + 30 * k)
  {
    TimeSlotsShape(510, 1260, 30);
    GridShape(510, 1260, 30);
    var g := Grid(510, 1260, 30);
    GridAt(510, 1260, 30, 0);
    GridAt(510, 1260, 30, 25);
    assert Labels(g)[0] == Label(510);
    assert Labels(g)[25] == Label(1260);
  }
}
