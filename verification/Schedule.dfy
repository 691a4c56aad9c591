/** Tick-schedule independence: with only paired sources, how frames and answers are split across
    passes does not matter. The rows are a one-pass function of the clock frames consumed. */
module Schedule {
  import opened Basics
  import opened Grid
  import opened CaptureEngine

  /** Every sample delivered is the one answer to its frame id on its topic. */
  ghost predicate OneAnswer(delivered: set<(Topic, Sample)>, answer: (Topic, nat) -> Sample) {
    forall t, x :: (t, x) in delivered ==> x == answer(t, x.fid)
  }

  function RowOf(c: Config, answer: (Topic, nat) -> Sample, f: Sample): Row {
    Row(f.ts, Fill(c, f, c.others, map s | s in c.others :: answer(s.topic, f.fid)))
  }

  /** The rows of a clock stream, with no queues, caches or ticks: thin it on the grid, answer each frame. */
  function OnePass(c: Config, answer: (Topic, nat) -> Sample, period: nat, t0: int, stream: seq<Sample>): seq<Row> {
    var kept := Kept(period, NotBefore(t0, stream));
    seq(|kept|, i requires 0 <= i < |kept| => RowOf(c, answer, kept[i]))
  }

  lemma {:induction false} FillDepends(c: Config, f: Sample, others: seq<Source>, p: map<Source, Sample>,
                                       q: map<Source, Sample>)
    requires forall s :: s in others ==> s in p && s in q && p[s] == q[s]
    ensures Fill(c, f, others, p) == Fill(c, f, others, q)
  {
    if others != [] {
      FillDepends(c, f, Init(others), p, q);
    }
  }

  lemma AlignedIsRowOf(c: Config, delivered: set<(Topic, Sample)>, answer: (Topic, nat) -> Sample, r: Row, f: Sample)
    requires AllPaired(c) && OneAnswer(delivered, answer) && Aligned(c, delivered, r, f)
    ensures r == RowOf(c, answer, f)
  {
    var picks :| AlignedBy(c, delivered, r, f, picks);
    var expected := map s | s in c.others :: answer(s.topic, f.fid);
    forall s | s in c.others
      ensures s in picks && picks[s] == expected[s]
    {
      assert AlignedPick(s, delivered, picks[s], f);
    }
    FillDepends(c, f, c.others, picks, expected);
  }

  lemma RowsAreOnePass(c: Config, e: Episode, answer: (Topic, nat) -> Sample)
    requires Sound(c, e) && AllPaired(c) && OneAnswer(e.log.delivered, answer)
    ensures e.rows == OnePass(c, answer, e.period, e.t0, Frames(e.log.consumed))
  {
    hide Sound, Kept, NotBefore, Of, Frames, Aligned, RowOf;
    NoHoles(c, e);
    var kept := Kept(e.period, NotBefore(e.t0, Frames(e.log.consumed)));
    forall i | 0 <= i < |e.rows|
      ensures e.rows[i] == RowOf(c, answer, kept[i])
    {
      AlignedIsRowOf(c, e.log.delivered, answer, e.rows[i], kept[i]);
    }
  }

  lemma {:induction false} NotBeforePrefix(t0: int, frames: seq<Sample>, k: nat)
    requires k <= |frames|
    ensures NotBefore(t0, frames[..k]) <= NotBefore(t0, frames)
    decreases |frames|
  {
    if k < |frames| {
      NotBeforePrefix(t0, Init(frames), k);
      assert Init(frames)[..k] == frames[..k];
    } else {
      assert frames[..k] == frames;
    }
  }

  lemma OnePassOfPrefix(c: Config, answer: (Topic, nat) -> Sample, period: nat, t0: int, short: seq<Sample>,
                        long: seq<Sample>)
    requires short <= long
    ensures OnePass(c, answer, period, t0, short) <= OnePass(c, answer, period, t0, long)
  {
    assert short == long[..|short|];
    NotBeforePrefix(t0, long, |short|);
    var a, b := NotBefore(t0, short), NotBefore(t0, long);
    assert a == b[..|a|];
    KeptOfPrefix(period, b, |a|);
  }

  /** Two recordings of one clock stream, ticked however: one row list is a prefix of the other. */
  lemma TickScheduleIndependence(c: Config, a: Episode, b: Episode, answer: (Topic, nat) -> Sample, stream: seq<Sample>)
    requires AllPaired(c) && Sound(c, a) && Sound(c, b) && a.period == b.period && a.t0 == b.t0
    requires OneAnswer(a.log.delivered, answer) && OneAnswer(b.log.delivered, answer)
    requires a.log.drained <= stream && b.log.drained <= stream
    ensures a.rows <= b.rows || b.rows <= a.rows
    ensures |a.log.consumed| <= |b.log.consumed| ==> a.rows <= b.rows
  {
    RowsAreOnePass(c, a, answer);
    RowsAreOnePass(c, b, answer);
    var fa, fb := Frames(a.log.consumed), Frames(b.log.consumed);
    assert fa == stream[..|fa|] by { assert fa <= a.log.drained; }
    assert fb == stream[..|fb|] by { assert fb <= b.log.drained; }
    if |fa| <= |fb| {
      assert fa <= fb;
      OnePassOfPrefix(c, answer, a.period, a.t0, fa, fb);
    } else {
      assert fb <= fa;
      OnePassOfPrefix(c, answer, a.period, a.t0, fb, fa);
    }
  }
}
