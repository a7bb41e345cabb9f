/** Raw counters that restart at zero, reconciled into totals that never shrink. */
module Traffic {
  /** One poll's delta with the time it spans, in nanoseconds. */
  datatype Sample = Sample(bytes: nat, elapsed: int)

  datatype Reading = Reading(raw: nat, elapsed: int)

  datatype Counter = Counter(credit: bool, seen: bool, lastRaw: nat, lastDelta: nat, total: nat, window: seq<Sample>, samples: nat)

  function NewCounter(credit: bool): Counter { Counter(credit, false, 0, 0, 0, [Sample(0, 0), Sample(0, 0)], 0) }

  function Delta(lastRaw: nat, raw: nat): nat { if raw >= lastRaw then raw - lastRaw else raw }

  function Fed(t: Counter, r: Reading): Counter
    requires |t.window| == 2
  {
    if !t.seen then t.(seen := true, lastRaw := r.raw, total := if t.credit then r.raw else t.total)
    else
      var delta := Delta(t.lastRaw, r.raw);
      Counter(t.credit, true, r.raw, delta, t.total + delta, t.window[t.samples % 2 := Sample(delta, r.elapsed)], t.samples + 1)
  }

  function FedAll(credit: bool, readings: seq<Reading>): (t: Counter)
    ensures |t.window| == 2
  {
    if readings == [] then NewCounter(credit) else Fed(FedAll(credit, readings[..|readings| - 1]), readings[|readings| - 1])
  }

  // ----- The ring

  /** The deltas of the readings behind the first. */
  function Deltas(readings: seq<Reading>): (deltas: seq<Sample>)
    ensures |deltas| == if readings == [] then 0 else |readings| - 1
  {
    if |readings| <= 1 then []
    else
      var n := |readings| - 1;
      Deltas(readings[..n]) + [Sample(Delta(readings[n - 1].raw, readings[n].raw), readings[n].elapsed)]
  }

  function Bytes(samples: seq<Sample>): nat {
    if samples == [] then 0 else Bytes(samples[..|samples| - 1]) + samples[|samples| - 1].bytes
  }

  /** The ring holds the last two deltas, each at its index modulo two. */
  predicate RingHolds(window: seq<Sample>, deltas: seq<Sample>) {
    |window| == 2 && forall i :: 0 <= i < |deltas| && |deltas| - 2 <= i ==> window[i % 2] == deltas[i]
  }

  lemma RingStep(window: seq<Sample>, deltas: seq<Sample>, next: Sample)
    requires RingHolds(window, deltas)
    ensures RingHolds(window[|deltas| % 2 := next], deltas + [next])
  {
    var n := |deltas|;
    forall i | 0 <= i < n + 1 && n - 1 <= i
      ensures window[n % 2 := next][i % 2] == (deltas + [next])[i]
    {
      if i == n - 1 {
        assert (n - 1) % 2 != n % 2;
      }
    }
  }

  /** What a tracker holds after any readings: their deltas' sum, the last of them, and the last two in the ring. */
  lemma {:induction false} TrackerHolds(credit: bool, readings: seq<Reading>)
    ensures var t, deltas := FedAll(credit, readings), Deltas(readings);
            && t.credit == credit && (t.seen <==> readings != [])
            && (readings != [] ==> t.lastRaw == readings[|readings| - 1].raw)
            && t.total == Bytes(deltas) + (if credit && readings != [] then readings[0].raw else 0)
            && t.samples == |deltas|
            && t.lastDelta == (if deltas == [] then 0 else deltas[|deltas| - 1].bytes)
            && RingHolds(t.window, deltas)
  {
    hide RingHolds;
    if readings == [] {
      assert RingHolds(NewCounter(credit).window, []) by { EmptyRing(credit); }
    } else {
      var init, last := readings[..|readings| - 1], readings[|readings| - 1];
      TrackerHolds(credit, init);
      var t, deltas := FedAll(credit, init), Deltas(init);
      if init != [] {
        var next := Sample(Delta(t.lastRaw, last.raw), last.elapsed);
        RingStep(t.window, deltas, next);
        assert init[|init| - 1] == readings[|readings| - 2];
        assert Deltas(readings) == deltas + [next];
        assert (deltas + [next])[..|deltas|] == deltas;
      }
    }
  }

  lemma EmptyRing(credit: bool)
    ensures RingHolds(NewCounter(credit).window, [])
  {}

  function Elapsed(samples: seq<Sample>): int {
    if samples == [] then 0 else Elapsed(samples[..|samples| - 1]) + samples[|samples| - 1].elapsed
  }

  /** Bytes a second over some nanoseconds, rounded down. */
  function Rate(bytes: nat, elapsed: int): int {
    if elapsed <= 0 then 0 else (bytes as real / (elapsed as real / 1000000000.0)).Floor
  }

  /** The most whole bytes a second that the bytes make up for every nanosecond of the span. */
  lemma RateIs(bytes: nat, elapsed: int)
    ensures elapsed <= 0 ==> Rate(bytes, elapsed) == 0
    ensures elapsed > 0 ==> var r := Rate(bytes, elapsed); 0 <= r && r * elapsed <= bytes * 1000000000 < (r + 1) * elapsed
  {
    if elapsed > 0 {
      var seconds, r := elapsed as real / 1000000000.0, Rate(bytes, elapsed);
      assert elapsed as real == 1000000000.0 * seconds;
      FloorQuotient(bytes as real, seconds, r);
      InNanoseconds(bytes, elapsed, seconds, r);
    }
  }

  lemma FloorQuotient(bytes: real, seconds: real, r: int)
    requires bytes >= 0.0 && seconds > 0.0 && r == (bytes / seconds).Floor
    ensures 0 <= r && r as real * seconds <= bytes < r as real * seconds + seconds
  {
    var q := bytes / seconds;
    Quotient(bytes, seconds, q);
    FloorBelow(q);
    AtLeast(q, r as real, seconds, bytes);
    Below(q, r as real + 1.0, r as real, seconds, bytes);
  }

  lemma Quotient(bytes: real, seconds: real, q: real)
    requires bytes >= 0.0 && seconds > 0.0 && q == bytes / seconds
    ensures bytes == q * seconds && q >= 0.0
  {}

  lemma AtLeast(q: real, r: real, seconds: real, bytes: real)
    requires seconds > 0.0 && bytes == q * seconds && r <= q
    ensures r * seconds <= bytes
  {
    Scaled(r, q, seconds);
  }

  lemma Below(q: real, top: real, r: real, seconds: real, bytes: real)
    requires seconds > 0.0 && bytes == q * seconds && q < top && top == r + 1.0
    ensures bytes < r * seconds + seconds
  {
    Scaled(q, top, seconds);
    assert top * seconds == r * seconds + seconds;
  }

  lemma FloorBelow(q: real)
    ensures q.Floor as real <= q < q.Floor as real + 1.0
  {}

  lemma InNanoseconds(bytes: nat, elapsed: int, seconds: real, r: nat)
    requires elapsed as real == 1000000000.0 * seconds
    requires r as real * seconds <= bytes as real < r as real * seconds + seconds
    ensures r * elapsed <= bytes * 1000000000 < (r + 1) * elapsed
  {
    var x := r as real * seconds;
    Product(r, elapsed, seconds);
    assert (r * elapsed) as real == 1000000000.0 * x;
    assert (r * elapsed + elapsed) as real == 1000000000.0 * (x + seconds);
    assert (bytes * 1000000000) as real == 1000000000.0 * bytes as real;
    assert (r + 1) * elapsed == r * elapsed + elapsed;
  }

  lemma Product(r: nat, elapsed: int, seconds: real)
    requires elapsed as real == 1000000000.0 * seconds
    ensures (r * elapsed) as real == 1000000000.0 * (r as real * seconds)
  {
    assert (r * elapsed) as real == r as real * elapsed as real;
  }

  lemma Scaled(a: real, b: real, factor: real)
    requires factor > 0.0
    ensures a <= b ==> a * factor <= b * factor
    ensures a < b ==> a * factor < b * factor
  {}

  function LastTwo(deltas: seq<Sample>): seq<Sample> { if |deltas| <= 2 then deltas else deltas[|deltas| - 2..] }

  class Tracker {
    const credit: bool
    var seen: bool
    var lastRaw: nat
    var lastDelta: nat
    var total: nat
    const window: array<Sample>
    var samples: nat

    ghost predicate Valid()
      reads this, window
    {
      window.Length == 2
    }

    ghost function Value(): (t: Counter)
      requires Valid()
      reads this, window
      ensures |t.window| == 2
    {
      Counter(credit, seen, lastRaw, lastDelta, total, window[..], samples)
    }

    constructor (creditBaseline: bool)
      ensures Valid() && fresh(window) && Value() == NewCounter(creditBaseline)
    {
      credit := creditBaseline;
      seen, lastRaw, lastDelta, total, samples := false, 0, 0, 0, 0;
      window := new Sample[2](_ => Sample(0, 0));
      new;
      assert window[..] == [Sample(0, 0), Sample(0, 0)];
    }

    method Add(raw: nat, elapsed: int)
      requires Valid()
      modifies this, window
      ensures Valid() && Value() == Fed(old(Value()), Reading(raw, elapsed))
    {
      if !seen {
        seen, lastRaw := true, raw;
        if credit {
          total := raw;
        }
        return;
      }
      var delta := raw;
      if raw >= lastRaw {
        delta := raw - lastRaw;
      }
      lastRaw := raw;
      total := total + delta;
      lastDelta := delta;
      window[samples % 2] := Sample(delta, elapsed);
      samples := samples + 1;
    }

    /** The rate over the last two deltas of whatever the tracker was fed. */
    method Speed(ghost readings: seq<Reading>) returns (bps: int)
      requires Valid() && Value() == FedAll(credit, readings)
      ensures bps == Rate(Bytes(LastTwo(Deltas(readings))), Elapsed(LastTwo(Deltas(readings))))
    {
      hide Rate, FedAll, Deltas, Bytes, Elapsed, RingHolds;
      ghost var deltas := Deltas(readings);
      TrackerHolds(credit, readings);
      if samples == 0 {
        NoRate();
        return 0;
      }
      var bytes, elapsed := 0, 0;
      var i := if samples > 2 then samples - 2 else 0;
      ghost var first: nat := i;
      assert deltas[first..first] == [];
      NoRate();
      while i < samples
        invariant first <= i <= samples
        invariant bytes == Bytes(deltas[first..i]) && elapsed == Elapsed(deltas[first..i])
      {
        RingAt(window[..], deltas, i);
        SliceStep(deltas, first, i);
        bytes := bytes + window[i % 2].bytes;
        elapsed := elapsed + window[i % 2].elapsed;
        i := i + 1;
      }
      assert deltas[first..samples] == LastTwo(deltas);
      bps := Rate(bytes, elapsed);
    }
  }

  lemma NoRate()
    ensures Bytes([]) == 0 && Elapsed([]) == 0 && Rate(0, 0) == 0
  {}

  lemma RingAt(window: seq<Sample>, deltas: seq<Sample>, i: nat)
    requires RingHolds(window, deltas) && i < |deltas| <= i + 2
    ensures |window| == 2 && window[i % 2] == deltas[i]
  {}

  lemma SliceStep(deltas: seq<Sample>, first: nat, i: nat)
    requires first <= i < |deltas|
    ensures Bytes(deltas[first..i + 1]) == Bytes(deltas[first..i]) + deltas[i].bytes
    ensures Elapsed(deltas[first..i + 1]) == Elapsed(deltas[first..i]) + deltas[i].elapsed
  {
    assert deltas[first..i + 1][..i - first] == deltas[first..i];
  }

  // ----- The counter behind the readings

  /** The bytes between two polls, one number for each stretch between restarts; the last stretch is the running one. */
  type Interval = stretches: seq<nat> | |stretches| > 0 witness [0]

  function Sum(stretches: seq<nat>): nat {
    if stretches == [] then 0 else Sum(stretches[..|stretches| - 1]) + stretches[|stretches| - 1]
  }

  /** What the counter shows behind the interval: it kept counting, or it started over. */
  function RawAfter(raw: nat, interval: Interval): nat {
    if |interval| == 1 then raw + interval[0] else interval[|interval| - 1]
  }

  /** Bytes counted by an epoch that ended before it was read again. */
  function Lost(interval: Interval): nat { Sum(interval[..|interval| - 1]) }

  function RawOver(first: nat, intervals: seq<Interval>): nat {
    if intervals == [] then first else RawAfter(RawOver(first, intervals[..|intervals| - 1]), intervals[|intervals| - 1])
  }

  /** The raw readings of a run of polls. */
  function Raws(first: nat, intervals: seq<Interval>): seq<nat> {
    if intervals == [] then [first] else Raws(first, intervals[..|intervals| - 1]) + [RawOver(first, intervals)]
  }

  function TrueTraffic(intervals: seq<Interval>): nat {
    if intervals == [] then 0 else TrueTraffic(intervals[..|intervals| - 1]) + Sum(intervals[|intervals| - 1])
  }

  /** An interval the delta accounts for to the byte: no restart, or one that shows as a drop and lost nothing. */
  predicate Accounted(raw: nat, interval: Interval) {
    |interval| == 1 || (Lost(interval) == 0 && (RawAfter(raw, interval) < raw || raw == 0))
  }

  lemma OneInterval(raw: nat, interval: Interval)
    ensures Delta(raw, RawAfter(raw, interval)) <= Sum(interval)
    ensures Delta(raw, RawAfter(raw, interval)) == Sum(interval) <==> Accounted(raw, interval)
  {
    if |interval| == 1 {
      assert interval[..0] == [];
      assert Sum(interval) == Sum([]) + interval[0];
    }
  }

  function RunningTotal(first: nat, intervals: seq<Interval>): nat {
    if intervals == [] then 0
    else
      var init := intervals[..|intervals| - 1];
      RunningTotal(first, init) + Delta(RawOver(first, init), RawOver(first, intervals))
  }

  predicate AllAccounted(first: nat, intervals: seq<Interval>) {
    intervals == [] ||
    (AllAccounted(first, intervals[..|intervals| - 1]) && Accounted(RawOver(first, intervals[..|intervals| - 1]), intervals[|intervals| - 1]))
  }

  /** The total never runs ahead of the traffic, and equals it exactly when every interval is accounted for. */
  lemma {:induction false} NeverOverCounts(first: nat, intervals: seq<Interval>)
    ensures RunningTotal(first, intervals) <= TrueTraffic(intervals)
    ensures RunningTotal(first, intervals) == TrueTraffic(intervals) <==> AllAccounted(first, intervals)
  {
    hide Accounted;
    if intervals != [] {
      var init := intervals[..|intervals| - 1];
      NeverOverCounts(first, init);
      OneInterval(RawOver(first, init), intervals[|intervals| - 1]);
    }
  }

  function AsReadings(raws: seq<nat>, elapsed: seq<int>): seq<Reading>
    requires |elapsed| == |raws|
  {
    seq(|raws|, i requires 0 <= i < |raws| => Reading(raws[i], elapsed[i]))
  }

  lemma {:induction false} RawsLength(first: nat, intervals: seq<Interval>)
    ensures |Raws(first, intervals)| == |intervals| + 1
    ensures Raws(first, intervals)[|intervals|] == RawOver(first, intervals)
  {
    if intervals != [] {
      RawsLength(first, intervals[..|intervals| - 1]);
    }
  }

  lemma {:induction false} TotalIsRunning(first: nat, intervals: seq<Interval>, elapsed: seq<int>)
    requires |elapsed| == |Raws(first, intervals)|
    ensures FedAll(false, AsReadings(Raws(first, intervals), elapsed)).total == RunningTotal(first, intervals)
    ensures var t := FedAll(false, AsReadings(Raws(first, intervals), elapsed)); t.seen && t.lastRaw == RawOver(first, intervals)
  {
    hide RawAfter, Delta;
    RawsLength(first, intervals);
    var readings := AsReadings(Raws(first, intervals), elapsed);
    if intervals == [] {
      assert readings[..0] == [];
      assert FedAll(false, readings) == Fed(FedAll(false, []), readings[0]);
    } else {
      var init := intervals[..|intervals| - 1];
      RawsLength(first, init);
      var n := |intervals|;
      TotalIsRunning(first, init, elapsed[..n]);
      assert readings[..n] == AsReadings(Raws(first, init), elapsed[..n]);
    }
  }

  /** For any counter and any polls: the tracker's total is at most the traffic since its baseline. */
  lemma TotalsNeverExceedTraffic(first: nat, intervals: seq<Interval>, elapsed: seq<int>)
    requires |elapsed| == |Raws(first, intervals)|
    ensures var total := FedAll(false, AsReadings(Raws(first, intervals), elapsed)).total;
            && total <= TrueTraffic(intervals)
            && (total == TrueTraffic(intervals) <==> AllAccounted(first, intervals))
  {
    hide FedAll, Raws, RunningTotal, TrueTraffic, AllAccounted;
    TotalIsRunning(first, intervals, elapsed);
    NeverOverCounts(first, intervals);
  }
}
