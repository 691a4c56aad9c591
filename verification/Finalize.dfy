/** What a finalize job makes of an episode: discarded, captured with its measured rate, or failed. */
module Finalize {
  import opened Basics
  import opened Grid
  import opened CaptureEngine

  /** A verdict as submitted to the recorder's inbox. */
  datatype Request = Request(captureId: Option<string>, reward: Option<real>, events: Option<seq<string>>)

  datatype Sidecar = Sidecar(
    context: string,
    length: nat,
    fps: real,
    recordHz: Option<real>,
    captureId: string,
    reward: Option<real>,
    events: seq<string>)

  datatype Outcome = Captured(sidecar: Sidecar) | Discarded(reason: string) | Failed

  const EP_CAPTURED := 1
  const EP_DISCARDED := 2
  const EP_FAILED := 3

  function Code(o: Outcome): nat {
    match o
    case Captured(_) => EP_CAPTURED
    case Discarded(_) => EP_DISCARDED
    case Failed => EP_FAILED
  }

  function Span(rows: seq<Row>): int
    requires rows != []
  {
    Last(rows).ts - rows[0].ts
  }

  /** The measured rate; the requested one, or 30, when there is no interval to measure. */
  function Fps(rows: seq<Row>, recHz: real): real
    requires rows != [] && (|rows| > 1 ==> Span(rows) != 0)
  {
    if |rows| > 1 then (|rows| - 1) as real / (Span(rows) as real / 1000000000.0)
    else if recHz != 0.0 then recHz else 30.0
  }

  /** `written` says whether the bundle could be encoded and committed. Dividing by a zero span raises. */
  function Finish(context: string, rows: seq<Row>, recHz: real, captureId: string, verdict: Option<Request>,
                  written: bool): Outcome {
    if rows == [] then Discarded("no frames")
    else if |rows| > 1 && Span(rows) == 0 then Failed
    else if !written then Failed
    else Captured(Sidecar(
      context, |rows|, Fps(rows, recHz), if recHz != 0.0 then Some(recHz) else None, captureId,
      if verdict.Some? then verdict.value.reward else None,
      if verdict.Some? && verdict.value.events.Some? then verdict.value.events.value else []))
  }

  ghost predicate StampsRise(rows: seq<Row>) {
    forall i, j :: 0 <= i < j < |rows| ==> rows[i].ts < rows[j].ts
  }

  ghost predicate AllOneStamp(rows: seq<Row>) {
    forall i, j :: 0 <= i < j < |rows| ==> rows[i].ts == rows[j].ts
  }

  /** What the recorder rings for an outcome: 1 captured, 2 discarded, 3 failed. A job without rows is discarded; one
      that cannot be written, or puts two or more rows on one single stamp, fails; any other is captured. */
  function RingFor(rows: seq<Row>, written: bool): nat {
    if rows == [] then 2 else if !written || (|rows| > 1 && OneStamp(rows)) then 3 else 1
  }

  predicate OneStamp(rows: seq<Row>) {
    forall i :: 0 <= i < |rows| ==> rows[i].ts == rows[0].ts
  }

  /** When a job of a sound episode is captured, discarded or fails; and what is rung for it. */
  lemma OutcomeIff(c: Config, e: Episode, context: string, recHz: real, captureId: string, verdict: Option<Request>,
                   written: bool)
    requires Sound(c, e)
    ensures var o := Finish(context, e.rows, recHz, captureId, verdict, written);
            && (o.Captured? <==> written && e.rows != [] && (|e.rows| == 1 || !AllOneStamp(e.rows)))
            && (o.Discarded? <==> e.rows == [])
            && (o.Failed? <==> e.rows != [] && (!written || (|e.rows| > 1 && AllOneStamp(e.rows))))
            && Code(o) == RingFor(e.rows, written)
  {
    if |e.rows| > 1 {
      assert InOrder(e.rows, e.t0, e.lastTs);
      assert Span(e.rows) == 0 ==> forall i :: 0 <= i < |e.rows| ==> e.rows[0].ts <= e.rows[i].ts <= Last(e.rows).ts;
      assert AllOneStamp(e.rows) ==> e.rows[0].ts == e.rows[|e.rows| - 1].ts;
    }
  }

  /** Two rows with m others between them are more than m periods apart. */
  ghost predicate Spaced(rows: seq<Row>, period: nat) {
    forall i, j :: 0 <= i < j < |rows| ==> rows[j].ts - rows[i].ts > (j - i - 1) * period
  }

  lemma AlignedStamp(c: Config, delivered: set<(Topic, Sample)>, r: Row, f: Sample)
    requires Aligned(c, delivered, r, f)
    ensures r.ts == f.ts
  {
  }

  lemma RowStamps(c: Config, e: Episode)
    requires Sound(c, e)
    ensures var kept := Kept(e.period, NotBefore(e.t0, Frames(e.log.consumed)));
            var skips := |Of(e.log.consumed, Skipped)|;
            |e.rows| + skips == |kept| && forall i :: 0 <= i < |e.rows| ==> e.rows[i].ts == kept[skips + i].ts
  {
    hide Sound, Kept, NotBefore, Of, Frames, Aligned;
    NoHoles(c, e);
    var kept := Kept(e.period, NotBefore(e.t0, Frames(e.log.consumed)));
    var skips := |Of(e.log.consumed, Skipped)|;
    forall i | 0 <= i < |e.rows|
      ensures e.rows[i].ts == kept[skips + i].ts
    {
      AlignedStamp(c, e.log.delivered, e.rows[i], kept[skips + i]);
    }
  }

  lemma SpacedLikeKept(period: nat, frames: seq<Sample>, skips: nat, rows: seq<Row>)
    requires period > 0 && |rows| + skips == |Kept(period, frames)|
    requires forall i :: 0 <= i < |rows| ==> rows[i].ts == Kept(period, frames)[skips + i].ts
    ensures Spaced(rows, period)
  {
    forall i, j | 0 <= i < j < |rows|
      ensures rows[j].ts - rows[i].ts > (j - i - 1) * period
    {
      RateCeiling(period, frames, skips + i, skips + j);
      assert (skips + j) - (skips + i) - 1 == j - i - 1;
    }
  }

  /** The rate ceiling on rows: it holds for every decimated episode, whatever the clock did. */
  lemma DecimatedSpaced(c: Config, e: Episode)
    requires Sound(c, e) && e.period > 0
    ensures Spaced(e.rows, e.period)
  {
    hide Sound, Kept, NotBefore, Of, Frames, Spaced;
    RowStamps(c, e);
    SpacedLikeKept(e.period, NotBefore(e.t0, Frames(e.log.consumed)), |Of(e.log.consumed, Skipped)|, e.rows);
  }

  /** So decimated stamps strictly rise, and a decimated episode never fails on its rate. */
  lemma DecimatedStampsRise(c: Config, e: Episode)
    requires Sound(c, e) && e.period > 0
    ensures StampsRise(e.rows)
    ensures |e.rows| > 1 ==> Span(e.rows) > 0
  {
    DecimatedSpaced(c, e);
    SpacedRise(e.rows, e.period);
    assert |e.rows| > 1 ==> e.rows[0].ts < e.rows[|e.rows| - 1].ts;
  }

  lemma NoProductBelowZero(m: nat, period: nat)
    ensures m * period >= 0
  {
  }

  lemma SpacedRise(rows: seq<Row>, period: nat)
    requires Spaced(rows, period)
    ensures StampsRise(rows)
  {
    forall i, j | 0 <= i < j < |rows|
      ensures rows[i].ts < rows[j].ts
    {
      NoProductBelowZero(j - i - 1, period);
    }
  }

  /** The measured rate of n >= 3 decimated rows stays below (n-1)/(n-2) times the requested grid's. */
  lemma MeasuredRateCeiling(rows: seq<Row>, period: nat, recHz: real)
    requires Spaced(rows, period) && period > 0 && |rows| >= 3
    ensures Span(rows) > 0
    ensures Fps(rows, recHz) < (|rows| - 1) as real / (|rows| - 2) as real * (1000000000.0 / period as real)
  {
    var n, s := |rows|, Span(rows);
    assert s > (n - 2) * period by { assert rows[n - 1].ts - rows[0].ts > (n - 1 - 0 - 1) * period; }
    assert (n - 2) * period >= period by { assert (n - 2) * period == period + (n - 3) * period; }
    RateBelow((n - 1) as real, s as real, (n - 2) as real, period as real);
  }

  lemma RateBelow(gaps: real, span: real, slots: real, period: real)
    requires gaps > 0.0 && slots > 0.0 && period > 0.0 && slots * period < span
    ensures gaps / (span / 1000000000.0) < gaps / slots * (1000000000.0 / period)
  {
    var x := gaps / (span / 1000000000.0);
    var y := gaps / slots * (1000000000.0 / period);
    var top := gaps * 1000000000.0;
    assert x * span == top by { assert x * (span / 1000000000.0) == gaps; }
    assert y * (slots * period) == top by {
      assert gaps / slots * slots == gaps && 1000000000.0 / period * period == 1000000000.0;
      assert y * (slots * period) == (gaps / slots * slots) * (1000000000.0 / period * period);
    }
    LessByProduct(x, span, y, slots * period);
  }

  lemma LessByProduct(x: real, a: real, y: real, b: real)
    requires 0.0 < b < a && x * a == y * b && x * a > 0.0
    ensures x < y
  {
    assert x > 0.0;
    assert x * b < x * a;
    assert (y - x) * b > 0.0;
  }

  /** A clock that is steady from some frame on, under a grid it can honour, whatever came before: from then on each row
      (counting the leading-edge skips) falls in a slot of its own, less than one clock gap late, and the number of
      rows follows from the last stamp alone. */
  lemma SteadyEpisode(c: Config, e: Episode, gap: int, past: seq<Sample>, frames: seq<Sample>)
    requires Sound(c, e) && 0 < gap <= e.period
    requires NotBefore(e.t0, Frames(e.log.consumed)) == past + frames && frames != [] && Steady(frames, gap)
    ensures var n, d := |Kept(e.period, past + frames[..1])|, Cursor(e.period, past + frames[..1]);
            var skips, t := |Of(e.log.consumed, Skipped)|, Last(frames).ts;
            && |e.rows| + skips == n + (if t < d then 0 else 1 + (t - d) / e.period)
            && forall i :: 0 <= i < |e.rows| && skips + i >= n ==>
                 Slot(d, e.period, skips + i - n) <= e.rows[i].ts < Slot(d, e.period, skips + i - n) + gap
  {
    hide Sound, Steady, NotBefore, Slot, Cursor, Kept;
    RowStamps(c, e);
    SteadyStretch(e.period, gap, past, frames);
    StretchCount(e.period, gap, past, frames);
  }

  /** At native rate two clock frames may share a stamp, and both become rows; an episode of just
      those two fails although every frame was captured. */
  lemma NativeTwinStampsFail(context: string, captureId: string)
    ensures var c := Config(Source("cam", "image", 30.0, false), []);
            var a, b := Sample(1, 7, 0), Sample(2, 7, 0);
            var p := Capture(c, Fresh(0, 0), [], [a, b]);
            && p.Going? && |p.e.rows| == 2
            && Finish(context, p.e.rows, 0.0, captureId, None, true) == Failed
  {
    var c := Config(Source("cam", "image", 30.0, false), []);
    var a, b := Sample(1, 7, 0), Sample(2, 7, 0);
    var e0 := Enqueue(Fresh(0, 0), [a, b]);
    assert e0.deferred == [a, b];
    assert FateOf(c, e0, a).Recorded?;
    var e1 := Consume(c, e0, a).(deferred := e0.deferred[1..]);
    assert e1.deferred == [b] && FateOf(c, e1, b).Recorded?;
    var e2 := Consume(c, e1, b).(deferred := e1.deferred[1..]);
    assert Pump(c, e2) == Going(e2);
    assert Pump(c, e1) == Going(e2);
    assert Pump(c, e0) == Going(e2);
  }
}
