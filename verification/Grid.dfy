/** Anchored-grid decimation: which clock frames a requested recording rate keeps.

    `Gate` decides one frame. `Kept` and `Cursor` run it over a whole stream, and the lemmas
    say what the stream of kept frames looks like: a rate ceiling that no stall or burst
    breaks, and no drift at all while the clock is steady. */
module Grid {
  import opened Basics

  datatype Decision = Decision(keep: bool, next: int)

  /** A kept frame is due, and leaves the next due time strictly ahead of it by at most one period.
      The due time moves by whole periods unless a whole slot went by without a frame. */
  function Gate(ts: int, nextDue: int, period: int): (d: Decision)
    ensures d.keep <==> period <= 0 || nextDue <= ts
    ensures period > 0 && d.keep ==> ts < d.next <= ts + period && nextDue + period <= d.next
    ensures period > 0 && d.keep && d.next != nextDue + period ==> d.next == ts + period && nextDue + period <= ts
    ensures !d.keep ==> d.next == nextDue
  {
    if period <= 0 then Decision(true, 0)
    else if ts < nextDue then Decision(false, nextDue)
    else if ts >= nextDue + period then Decision(true, ts + period)
    else Decision(true, nextDue + period)
  }

  /** The due time after a whole stream; an episode starts with a due time of 0. */
  function Cursor(period: int, frames: seq<Sample>): int {
    if frames == [] then 0 else Gate(Last(frames).ts, Cursor(period, Init(frames)), period).next
  }

  /** The frames of a stream that the grid keeps, in order. */
  function Kept(period: int, frames: seq<Sample>): seq<Sample> {
    if frames == [] then [] else
      Kept(period, Init(frames)) +
      if Gate(Last(frames).ts, Cursor(period, Init(frames)), period).keep then [Last(frames)] else []
  }

  lemma KeptSnoc(period: int, frames: seq<Sample>, f: Sample)
    ensures Cursor(period, frames + [f]) == Gate(f.ts, Cursor(period, frames), period).next
    ensures Kept(period, frames + [f]) ==
            Kept(period, frames) + if Gate(f.ts, Cursor(period, frames), period).keep then [f] else []
  {
    SnocParts(frames, f);
  }

  lemma {:induction false} KeptOfPrefix(period: int, frames: seq<Sample>, k: nat)
    requires k <= |frames|
    ensures Kept(period, frames[..k]) <= Kept(period, frames)
    decreases |frames|
  {
    if k < |frames| {
      KeptOfPrefix(period, Init(frames), k);
      assert Init(frames)[..k] == frames[..k];
    } else {
      assert frames[..k] == frames;
    }
  }

  /** At native rate nothing is dropped. */
  lemma {:induction false} NativeKeepsAll(period: int, frames: seq<Sample>)
    requires period <= 0
    ensures Kept(period, frames) == frames
  {
    if frames != [] {
      hide Cursor, Init;
      NativeKeepsAll(period, Init(frames));
      Unsnoc(frames);
    }
  }

  /** The time i periods after d: where slot i begins, if slot 0 begins at d. */
  function Slot(d: int, period: int, i: int): int {
    d + i * period
  }

  lemma SlotNext(d: int, period: int, i: int)
    ensures Slot(d, period, i + 1) == Slot(d, period, i) + period && Slot(d, period, 0) == d
  {
  }

  /** The due time is ahead of every kept frame by a period for each one kept since. */
  ghost predicate Ahead(k: seq<Sample>, period: int, due: int) {
    forall i {:trigger k[i]} :: 0 <= i < |k| ==> Slot(k[i].ts, period, |k| - 1 - i) < due
  }

  lemma AheadSnoc(k: seq<Sample>, period: int, due: int, f: Sample)
    requires period > 0 && Ahead(k, period, due)
    ensures var g := Gate(f.ts, due, period); Ahead(k + if g.keep then [f] else [], period, g.next)
  {
    hide Slot;
    var g := Gate(f.ts, due, period);
    if g.keep {
      forall i {:trigger (k + [f])[i]} | 0 <= i < |k| + 1
        ensures Slot((k + [f])[i].ts, period, |k| - i) < g.next
      {
        SlotNext((k + [f])[i].ts, period, |k| - 1 - i);
        if i < |k| {
          assert (k + [f])[i] == k[i];
        }
      }
    } else {
      assert k + [] == k;
    }
  }

  lemma {:induction false} CursorAhead(period: int, frames: seq<Sample>)
    requires period > 0
    ensures Ahead(Kept(period, frames), period, Cursor(period, frames))
  {
    hide Ahead;
    if frames == [] {
      assert Ahead([], period, 0) by { NoneAhead(period); }
    } else {
      CursorAhead(period, Init(frames));
      AheadSnoc(Kept(period, Init(frames)), period, Cursor(period, Init(frames)), Last(frames));
    }
  }

  lemma NoneAhead(period: int)
    ensures Ahead([], period, 0)
  {
  }

  /** Rate ceiling, whatever the stamps do: two kept frames with m others between them are
      more than m periods apart. */
  lemma {:induction false} RateCeiling(period: int, frames: seq<Sample>, i: nat, j: nat)
    requires period > 0 && i < j < |Kept(period, frames)|
    ensures Kept(period, frames)[j].ts - Kept(period, frames)[i].ts > (j - i - 1) * period
    decreases |frames|
  {
    var before := Kept(period, Init(frames));
    if j < |before| {
      RateCeiling(period, Init(frames), i, j);
    } else {
      CursorAhead(period, Init(frames));
      assert Slot(before[i].ts, period, |before| - 1 - i) < Cursor(period, Init(frames));
    }
  }

  /** A clock whose stamps never go back and never leave a gap of more than `gap`. */
  ghost predicate Steady(frames: seq<Sample>, gap: int) {
    forall i :: 0 <= i < |frames| - 1 ==> frames[i].ts <= frames[i + 1].ts <= frames[i].ts + gap
  }

  lemma CursorPassed(period: int, frames: seq<Sample>)
    requires period > 0 && frames != []
    ensures Last(frames).ts < Cursor(period, frames)
  {
  }

  /** From the n-th on, each kept frame falls within the first `gap` of a slot of its own. */
  ghost predicate InSlots(k: seq<Sample>, n: int, d: int, period: int, gap: int) {
    forall j :: n <= j < |k| && 0 <= j ==> Slot(d, period, j - n) <= k[j].ts < Slot(d, period, j - n) + gap
  }

  /** One more frame of a steady clock: it is gated, or it opens the next slot. */
  lemma SlotStep(period: int, gap: int, k: seq<Sample>, n: nat, d: int, f: Sample)
    requires 0 < gap <= period && n <= |k| && InSlots(k, n, d, period, gap)
    requires f.ts < Slot(d, period, |k| - n) + gap
    ensures var g := Gate(f.ts, Slot(d, period, |k| - n), period);
            var k' := k + if g.keep then [f] else [];
            g.next == Slot(d, period, |k'| - n) && InSlots(k', n, d, period, gap)
  {
    hide Slot;
    SlotNext(d, period, |k| - n);
  }

  lemma SteadyInit(frames: seq<Sample>, gap: int)
    requires |frames| > 1 && Steady(frames, gap)
    ensures Steady(Init(frames), gap) && Init(frames)[..1] == frames[..1]
    ensures Last(Init(frames)).ts <= Last(frames).ts <= Last(Init(frames)).ts + gap
  {
    var i := |frames| - 2;
    assert frames[i].ts <= frames[i + 1].ts <= frames[i].ts + gap;
  }

  lemma NoneSince(k: seq<Sample>, d: int, period: int, gap: int)
    ensures Slot(d, period, |k| - |k|) == d && InSlots(k, |k|, d, period, gap)
  {
  }

  /** Lateness does not accumulate, whatever came before. Once a clock is steady, and no slower than the grid, from some
      frame on that leaves the due time at d, the due time only ever moves by whole periods, and every later kept
      frame opens a slot of its own. */
  lemma {:induction false} SteadyStretch(period: int, gap: int, past: seq<Sample>, frames: seq<Sample>)
    requires 0 < gap <= period && frames != [] && Steady(frames, gap)
    ensures var n, k := |Kept(period, past + frames[..1])|, Kept(period, past + frames);
            var d := Cursor(period, past + frames[..1]);
            && n <= |k| && Cursor(period, past + frames) == Slot(d, period, |k| - n)
            && InSlots(k, n, d, period, gap)
  {
    hide Slot, Gate, Kept, Cursor, InSlots, Steady;
    if |frames| == 1 {
      assert frames == frames[..1];
      NoneSince(Kept(period, past + frames), Cursor(period, past + frames), period, gap);
    } else {
      var front := Init(frames);
      SteadyInit(frames, gap);
      SteadyStretch(period, gap, past, front);
      assert past + frames == (past + front) + [Last(frames)];
      assert Last(past + front) == Last(front);
      CursorPassed(period, past + front);
      KeptSnoc(period, past + front, Last(frames));
      SlotStep(period, gap, Kept(period, past + front), |Kept(period, past + frames[..1])|,
               Cursor(period, past + frames[..1]), Last(frames));
    }
  }

  /** So how many frames a steady stretch keeps after its first has a closed form: every slot it passes yields
      exactly one. */
  lemma StretchCount(period: int, gap: int, past: seq<Sample>, frames: seq<Sample>)
    requires 0 < gap <= period && frames != [] && Steady(frames, gap)
    ensures var d := Cursor(period, past + frames[..1]); var t := Last(frames).ts;
            |Kept(period, past + frames)| - |Kept(period, past + frames[..1])| ==
            if t < d then 0 else 1 + (t - d) / period
  {
    hide Slot, Gate, Kept, Cursor, Steady;
    SteadyStretch(period, gap, past, frames);
    assert Last(past + frames) == Last(frames);
    CursorPassed(period, past + frames);
    var k, n := Kept(period, past + frames), |Kept(period, past + frames[..1])|;
    var d, t := Cursor(period, past + frames[..1]), Last(frames).ts;
    LastKeptOfStretch(period, past, frames, gap);
    SlotNext(d, period, |k| - 1 - n);
    if |k| > n {
      assert Slot(d, period, |k| - 1 - n) <= k[|k| - 1].ts <= t < Slot(d, period, |k| - n);
      SlotQuotient(t, d, period, |k| - 1 - n);
    }
  }

  lemma SlotQuotient(t: int, d: int, period: int, i: nat)
    requires period > 0 && Slot(d, period, i) <= t < Slot(d, period, i + 1)
    ensures t >= d && (t - d) / period == i
  {
    SlotNext(d, period, i);
    assert i * period >= 0;
    QuotientIs(t - d, period, i);
  }

  /** What a steady stretch adds is not stamped after its last frame. */
  lemma {:induction false} LastKeptOfStretch(period: int, past: seq<Sample>, frames: seq<Sample>, gap: int)
    requires Steady(frames, gap) && frames != []
    ensures var n, k := |Kept(period, past + frames[..1])|, Kept(period, past + frames);
            n <= |k| && forall j :: n <= j < |k| ==> k[j].ts <= Last(frames).ts
  {
    if |frames| > 1 {
      LastKeptOfStretch(period, past, Init(frames), gap);
      SteadyInit(frames, gap);
      assert past + frames == (past + Init(frames)) + [Last(frames)];
      KeptSnoc(period, past + Init(frames), Last(frames));
    } else {
      assert frames == frames[..1];
    }
  }

  lemma FirstKept(period: int, frames: seq<Sample>)
    requires frames != [] && frames[0].ts >= 0
    ensures [] + frames == frames && [] + frames[..1] == frames[..1] && Kept(period, frames[..1]) == frames[..1]
  {
    assert Init(frames[..1]) == [];
  }

  /** A clock that is steady from its first frame on. */
  lemma OneFramePerSlot(period: int, gap: int, frames: seq<Sample>)
    requires 0 < gap <= period && frames != [] && frames[0].ts >= 0 && Steady(frames, gap)
    ensures var k := Kept(period, frames); var d := Cursor(period, frames[..1]);
            && k != [] && k[0] == frames[0]
            && Cursor(period, frames) == Slot(d, period, |k| - 1)
            && InSlots(k, 1, d, period, gap)
  {
    hide Slot, Gate, Kept, Cursor, Steady, InSlots;
    FirstKept(period, frames);
    SteadyStretch(period, gap, [], frames);
    KeptOfPrefix(period, frames, 1);
  }

  lemma KeptCount(period: int, gap: int, frames: seq<Sample>)
    requires 0 < gap <= period && frames != [] && frames[0].ts >= 0 && Steady(frames, gap)
    ensures var d := Cursor(period, frames[..1]);
            |Kept(period, frames)| == if Last(frames).ts < d then 1 else 2 + (Last(frames).ts - d) / period
  {
    FirstKept(period, frames);
    StretchCount(period, gap, [], frames);
  }

  lemma QuotientIs(x: int, p: int, q: int)
    requires p > 0 && q * p <= x < q * p + p
    ensures x / p == q
  {
    var d := x / p - q;
    assert x == (x / p) * p + x % p;
    assert d * p == (x / p) * p - q * p;
    assert d >= 1 ==> d * p >= p;
    assert d <= -1 ==> d * p <= -p;
  }

  function Times(n: int, hz: real): real {
    n as real * hz
  }

  /** p is the nanosecond period of a rate: none at native rate; otherwise the longest whole one of which that many
      still fit into a second. */
  ghost predicate PeriodOf(p: int, hz: real) {
    if hz == 0.0 then p == 0 else Times(p, hz) <= 1000000000.0 < Times(p + 1, hz)
  }

  /** The nanosecond period of a requested rate. */
  function PeriodNs(hz: real): (p: nat)
    requires hz >= 0.0
    ensures PeriodOf(p, hz)
  {
    if hz == 0.0 then 0
    else
      PeriodIsFloor(hz);
      (1000000000.0 / hz).Floor
  }

  lemma PeriodIsFloor(hz: real)
    requires hz > 0.0
    ensures 0 <= (1000000000.0 / hz).Floor && PeriodOf((1000000000.0 / hz).Floor, hz)
  {
    hide PeriodOf;
    DivideBack(1000000000.0, hz);
    FloorOfQuotient(1000000000.0 / hz, hz);
  }

  lemma FloorOfQuotient(q: real, hz: real)
    requires q > 0.0 && hz > 0.0 && q * hz == 1000000000.0
    ensures 0 <= q.Floor && PeriodOf(q.Floor, hz)
  {
    FloorBetween(q.Floor, q, hz, 1000000000.0);
  }

  lemma DivideBack(x: real, y: real)
    requires x > 0.0 && y > 0.0
    ensures x / y > 0.0 && x / y * y == x
  {
  }

  lemma FloorBetween(p: int, q: real, y: real, x: real)
    requires p as real <= q < (p + 1) as real && y > 0.0 && q * y == x
    ensures Times(p, y) <= x < Times(p + 1, y)
  {
    MulMonotone(p as real, q, y);
    MulStrict(q, (p + 1) as real, y);
  }

  lemma MulMonotone(a: real, b: real, y: real)
    requires a <= b && y > 0.0
    ensures a * y <= b * y
  {
  }

  lemma MulStrict(a: real, b: real, y: real)
    requires a < b && y > 0.0
    ensures a * y < b * y
  {
  }

  lemma TimesNext(n: int, hz: real)
    ensures Times(n + 1, hz) == Times(n, hz) + hz && Times(0, hz) == 0.0
  {
  }

  lemma TimesRises(m: int, n: int, hz: real)
    requires hz > 0.0 && m <= n
    ensures Times(m, hz) <= Times(n, hz)
  {
    MulMonotone(m as real, n as real, hz);
  }

  /** The requested rate at START: none configured, none positive, or none the clock can honour, is native. */
  function RecordHz(requested: Option<real>, clockHz: real): (hz: real)
    requires clockHz > 0.0
    ensures hz == 0.0 || 0.0 < hz < clockHz
    ensures hz > 0.0 <==> requested.Some? && 0.0 < requested.value < clockHz
    ensures hz > 0.0 ==> hz == requested.value
  {
    var hz := if requested.Some? then requested.value else 0.0;
    if hz >= clockHz then 0.0 else if hz > 0.0 then hz else 0.0
  }

  /** A decimating period is never shorter than the clock's own nominal period. */
  lemma PeriodAtLeastClock(requested: Option<real>, clockHz: real)
    requires clockHz > 0.0
    ensures var hz := RecordHz(requested, clockHz);
            hz > 0.0 ==> PeriodNs(hz) >= (1000000000.0 / clockHz).Floor
  {
    var hz := RecordHz(requested, clockHz);
    if hz > 0.0 {
      var a, b := 1000000000.0 / hz, 1000000000.0 / clockHz;
      assert a * hz == b * clockHz;
      if a < b {
        assert a * hz < b * hz < b * clockHz;
      }
    }
  }
}
