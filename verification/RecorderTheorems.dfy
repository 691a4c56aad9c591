/** What the run invariant means, handler by handler and run by run. */
module RecorderTheorems {
  import opened Basics
  import opened Grid
  import opened CaptureEngine
  import opened Passes
  import opened Finalize
  import opened Schedule
  import opened RecorderModel
  import opened RecorderRuns
  import ChangeLog

  // ----- Accounting ---------------------------------------------------------------------------

  lemma {:induction false} ReportCount(reports: seq<Report>)
    ensures |LostIds(reports)| + |DoneJobs(reports)| == |reports|
  {
    if reports != [] {
      ReportCount(Init(reports));
    }
  }

  lemma {:induction false} JobCount(submitted: seq<Submission>)
    ensures |JobIds(Jobs(submitted))| == |Jobs(submitted)| == |submitted|
  {
    if submitted != [] {
      JobCount(Init(submitted));
      SnocParts(Jobs(Init(submitted)), Last(submitted).job);
    }
  }

  lemma {:induction false} JobAt(submitted: seq<Submission>, i: nat)
    requires i < |submitted|
    ensures i < |JobIds(Jobs(submitted))| && i < |Jobs(submitted)|
    ensures Jobs(submitted)[i] == submitted[i].job && JobIds(Jobs(submitted))[i] == submitted[i].job.id
  {
    hide Jobs, JobIds;
    JobCount(submitted);
    JobCount(Init(submitted));
    SnocJobs(Init(submitted), Last(submitted));
    Unsnoc(submitted);
    if i < |submitted| - 1 {
      JobAt(Init(submitted), i);
    }
  }

  /** Accepted starts are user discards, aborts, submitted jobs and at most the one being recorded;
      submitted jobs are collected or pending; each abort and each collected job rings exactly once. */
  lemma EpisodesCounted(c: Config, rs: seq<Recorder>, evs: seq<Event>)
    requires IsRun(c, rs, evs)
    ensures var r := Last(rs); var lost, done := LostIds(r.books.reports), DoneJobs(r.books.reports);
            && |r.books.started| ==
               |r.books.discarded| + |lost| + |r.books.submitted| + (if r.mode.Recording? then 1 else 0)
            && |r.books.submitted| == |done| + |r.pending|
            && |r.rung| == |lost| + |done|
  {
    hide EpisodeSound, VerdictsBalance, CellsSound, Settled, StartsDistinct, ReportSound, StartsBalance, JobsBalance;
    var r := Last(rs);
    RunSound(c, rs, evs, |rs| - 1);
    ReportCount(r.books.reports);
    JobCount(r.books.submitted);
    CountsOf(r);
  }

  lemma CountsOf(r: Recorder)
    requires StartsBalance(r) && JobsBalance(r)
    ensures |r.books.started| ==
            |r.books.discarded| + |LostIds(r.books.reports)| + |JobIds(Jobs(r.books.submitted))| + |Current(r)|
    ensures |Jobs(r.books.submitted)| == |DoneJobs(r.books.reports)| + |r.pending|
  {
    assert |multiset(r.books.started)| ==
           |multiset(r.books.discarded)| + |multiset(LostIds(r.books.reports))| +
           |multiset(JobIds(Jobs(r.books.submitted)))| + |Current(r)|;
    assert |multiset(Jobs(r.books.submitted))| == |multiset(DoneJobs(r.books.reports))| + |multiset(r.pending)|;
  }

  lemma {:induction false} DistinctOnce<T>(s: seq<T>, x: T)
    requires forall i, j :: 0 <= i < j < |s| ==> s[i] != s[j]
    ensures multiset(s)[x] <= 1
  {
    if s != [] {
      assert s == Init(s) + [Last(s)];
      DistinctOnce(Init(s), x);
      if x == Last(s) {
        assert x !in Init(s);
        assert multiset(Init(s))[x] == 0;
      }
    }
  }

  lemma TwiceInSeq<T>(s: seq<T>, i: nat, j: nat)
    requires i < j < |s| && s[i] == s[j]
    ensures multiset(s)[s[i]] >= 2
  {
    assert s == s[..j] + [s[j]] + s[j + 1..];
    assert s[i] in s[..j];
  }

  /** No episode has two fates: an identity is discarded, lost, submitted or current at most once in all. */
  lemma OneFateEach(c: Config, rs: seq<Recorder>, evs: seq<Event>, id: string)
    requires IsRun(c, rs, evs)
    ensures var r := Last(rs);
            multiset(r.books.discarded)[id] + multiset(LostIds(r.books.reports))[id] +
            multiset(JobIds(Jobs(r.books.submitted)))[id] + Current(r)[id] == (if id in r.books.started then 1 else 0)
  {
    var r := Last(rs);
    RunSound(c, rs, evs, |rs| - 1);
    DistinctOnce(r.books.started, id);
    assert id in r.books.started <==> multiset(r.books.started)[id] > 0;
  }

  // ----- Verdicts -----------------------------------------------------------------------------

  /** Every verdict ever submitted is still in the inbox, quarantined, or merged; a merged one names its
      own episode's identity, and no two jobs carry the same identity. */
  lemma VerdictsPartitioned(c: Config, rs: seq<Recorder>, evs: seq<Event>)
    requires IsRun(c, rs, evs)
    ensures var r := Last(rs);
            && multiset(r.books.sent) ==
               multiset(r.inbox) + multiset(r.parked) + multiset(Merged(Jobs(r.books.submitted)))
            && (forall s :: s in r.books.submitted && s.job.verdict.Some? ==>
                  s.job.verdict.value.captureId == Some(s.job.id))
            && (forall i, j :: 0 <= i < j < |r.books.submitted| ==>
                  r.books.submitted[i].job.id != r.books.submitted[j].job.id)
  {
    var r := Last(rs);
    RunSound(c, rs, evs, |rs| - 1);
    forall s | s in r.books.submitted && s.job.verdict.Some?
      ensures s.job.verdict.value.captureId == Some(s.job.id)
    {
      assert SubmissionSound(c, s);
    }
    forall i, j | 0 <= i < j < |r.books.submitted|
      ensures r.books.submitted[i].job.id != r.books.submitted[j].job.id
    {
      JobAt(r.books.submitted, i);
      JobAt(r.books.submitted, j);
      var ids := JobIds(Jobs(r.books.submitted));
      OneFateEach(c, rs, evs, ids[i]);
      if ids[i] == ids[j] {
        TwiceInSeq(ids, i, j);
      }
    }
  }

  // ----- Every episode that leaves the recorder ------------------------------------------------

  /** Every submitted episode is exact: its rows belong, in order and without holes, to the grid's choice of
      the clock frames drained since its START, each aligned with samples delivered since then. */
  ghost predicate Exact(c: Config, s: Submission) {
    var kept := Kept(s.e.period, NotBefore(s.e.t0, Frames(s.e.log.consumed)));
    var skips := |Of(s.e.log.consumed, Skipped)|;
    && s.job.recHz >= 0.0 && PeriodOf(s.e.period, s.job.recHz)
    && s.e.log.drained == Frames(s.e.log.consumed) + s.e.deferred
    && |s.job.rows| + skips == |kept|
    && (forall i :: 0 <= i < |s.job.rows| ==> Aligned(c, s.e.log.delivered, s.job.rows[i], kept[skips + i]))
    && InOrder(s.job.rows, s.e.t0, s.e.lastTs)
    && |s.job.rows| <= 1799 + 2 * 8
    && (s.e.period > 0 ==> Spaced(s.job.rows, s.e.period))
  }

  lemma SoundIsExact(c: Config, s: Submission)
    requires SubmissionSound(c, s)
    ensures Exact(c, s)
  {
    hide Aligned, Spaced, Kept, NotBefore, Of, Frames, CachesSound, FateFits, Ordered, AllAligned, PeriodNs;
    NoHoles(c, s.e);
    if s.e.period > 0 {
      DecimatedSpaced(c, s.e);
    }
  }

  lemma EverySubmissionExact(c: Config, rs: seq<Recorder>, evs: seq<Event>)
    requires IsRun(c, rs, evs)
    ensures forall s :: s in Last(rs).books.submitted ==> Exact(c, s)
  {
    hide Exact, SubmissionSound, Settled;
    RunSound(c, rs, evs, |rs| - 1);
    forall s | s in Last(rs).books.submitted
      ensures Exact(c, s)
    {
      SoundIsExact(c, s);
    }
  }

  lemma OutcomeExplained(c: Config, s: Submission, written: bool)
    requires SubmissionSound(c, s)
    ensures OutcomeOf(s.job, written).Captured? <==>
            written && s.job.rows != [] && (|s.job.rows| == 1 || !AllOneStamp(s.job.rows))
    ensures OutcomeOf(s.job, written).Discarded? <==> s.job.rows == []
    ensures Code(OutcomeOf(s.job, written)) == RingFor(s.job.rows, written)
  {
    hide Sound, Finish, AllOneStamp, OneStamp;
    OutcomeIff(c, s.e, s.job.context, s.job.recHz, s.job.id, s.job.verdict, written);
  }

  /** A collected job had been submitted. */
  lemma DoneWasSubmitted(r: Recorder, p: Report) returns (s: Submission)
    requires JobsBalance(r) && p in r.books.reports && p.Done?
    ensures s in r.books.submitted && s.job == p.job
  {
    DoneJobOf(r.books.reports, p);
    assert p.job in multiset(DoneJobs(r.books.reports));
    assert p.job in multiset(Jobs(r.books.submitted));
    JobCount(r.books.submitted);
    var i :| 0 <= i < |Jobs(r.books.submitted)| && Jobs(r.books.submitted)[i] == p.job;
    JobAt(r.books.submitted, i);
    s := r.books.submitted[i];
  }

  /** So what a collected job reported follows from its rows alone: with a bundle that could be written it was
      captured exactly when it had rows and not two or more on one single stamp. */
  lemma EveryOutcomeExplained(c: Config, rs: seq<Recorder>, evs: seq<Event>, p: Report)
    requires IsRun(c, rs, evs) && p in Last(rs).books.reports && p.Done?
    ensures exists written ::
              && p.outcome == OutcomeOf(p.job, written)
              && (p.outcome.Captured? <==>
                    written && p.job.rows != [] && (|p.job.rows| == 1 || !AllOneStamp(p.job.rows)))
              && (p.outcome.Discarded? <==> p.job.rows == [])
              && RingOf(p) == RingFor(p.job.rows, written)
  {
    hide SubmissionSound, JobsBalance, StartsBalance, VerdictsBalance, CellsSound, Settled, OutcomeOf, AllOneStamp,
         Sound;
    var r := Last(rs);
    RunSound(c, rs, evs, |rs| - 1);
    assert ReportSound(p);
    var written :| p.outcome == OutcomeOf(p.job, written);
    var s := DoneWasSubmitted(r, p);
    OutcomeExplained(c, s, written);
  }

  /** Every report rings exactly once, in order: 3 for an episode that was lost, and for a collected job 1, 2 or 3 by
      its rows and by whether they could be written. */
  lemma EveryRingExplained(c: Config, rs: seq<Recorder>, evs: seq<Event>, i: nat) returns (written: bool)
    requires IsRun(c, rs, evs) && i < |Last(rs).books.reports|
    ensures |Last(rs).rung| == |Last(rs).books.reports|
    ensures Last(rs).rung[i] ==
            match Last(rs).books.reports[i]
            case Lost(_) => 3
            case Done(job, _) => RingFor(job.rows, written)
  {
    hide SubmissionSound, JobsBalance, StartsBalance, VerdictsBalance, CellsSound, Settled, OutcomeOf, AllOneStamp,
         Sound, RingFor;
    var r := Last(rs);
    RunSound(c, rs, evs, |rs| - 1);
    var p := r.books.reports[i];
    written := true;
    if p.Done? {
      EveryOutcomeExplained(c, rs, evs, p);
      written :| p.outcome == OutcomeOf(p.job, written) && RingOf(p) == RingFor(p.job.rows, written);
    }
  }

  /** What a sidecar must say of the job it was written for: its context, length and identity; its nominal rate, if
      it was decimated; the reward and events of the verdict that names it, and none without one; and a rate
      that, multiplied back by the time from first to last row, counts the steps between them. */
  ghost predicate TrueSidecar(job: Job, side: Sidecar) {
    var n := side.length;
    && side.context == job.context && side.captureId == job.id && n == |job.rows| > 0
    && side.recordHz == (if job.recHz > 0.0 then Some(job.recHz) else None)
    && (match job.verdict
        case None => side.reward == None && side.events == []
        case Some(v) => v.captureId == Some(side.captureId) && side.reward == v.reward
                        && side.events == if v.events.Some? then v.events.value else [])
    && (n == 1 ==> side.fps == if job.recHz > 0.0 then job.recHz else 30.0)
    && (n > 1 ==> Span(job.rows) > 0 && side.fps * Span(job.rows) as real == (n - 1) as real * 1000000000.0)
  }

  /** A captured episode's sidecar is true of a submitted, exact episode; and its measured rate is under the
      requested grid's ceiling. */
  lemma EverySidecarTrue(c: Config, rs: seq<Recorder>, evs: seq<Event>, p: Report) returns (s: Submission)
    requires IsRun(c, rs, evs) && p in Last(rs).books.reports && p.Done? && p.outcome.Captured?
    ensures var side := p.outcome.sidecar; var n := side.length;
            && s in Last(rs).books.submitted && s.job == p.job && Exact(c, s)
            && TrueSidecar(s.job, side)
            && (s.e.period > 0 && n >= 3 ==>
                  side.fps < (n - 1) as real / (n - 2) as real * (1000000000.0 / s.e.period as real))
            && (0.0 < s.job.recHz < 1000000000.0 && n >= 3 ==>
                  side.fps * (1000000000.0 - s.job.recHz) <
                  (n - 1) as real / (n - 2) as real * (s.job.recHz * 1000000000.0))
  {
    hide Exact, SubmissionSound, JobsBalance, StartsBalance, VerdictsBalance, CellsSound, Settled, Sound, Finish, Times;
    var r := Last(rs);
    RunSound(c, rs, evs, |rs| - 1);
    assert ReportSound(p);
    var written :| p.outcome == OutcomeOf(p.job, written);
    s := DoneWasSubmitted(r, p);
    SoundIsExact(c, s);
    SidecarOf(c, s, written);
    RateUnderCeiling(c, s, written);
    var n, hz := |s.job.rows|, s.job.recHz;
    if 0.0 < hz < 1000000000.0 && n >= 3 {
      SubmissionPeriod(c, s);
      PeriodPositive(s.e.period, hz);
      CeilingByRate(p.outcome.sidecar.fps, (n - 1) as real / (n - 2) as real, s.e.period, hz);
    }
  }

  lemma SubmissionPeriod(c: Config, s: Submission)
    requires SubmissionSound(c, s)
    ensures PeriodOf(s.e.period, s.job.recHz)
  {
  }

  lemma PeriodPositive(p: nat, hz: real)
    requires PeriodOf(p, hz) && 0.0 < hz < 1000000000.0
    ensures p > 0 && Times(p, hz) > 1000000000.0 - hz
  {
    hide Times;
    TimesNext(p, hz);
  }

  lemma CeilingByRate(fps: real, k: real, p: nat, hz: real)
    requires p > 0 && k > 0.0 && 0.0 < hz < 1000000000.0 && Times(p, hz) > 1000000000.0 - hz
    requires fps < k * (1000000000.0 / p as real)
    ensures fps * (1000000000.0 - hz) < k * (hz * 1000000000.0)
  {
    var g, d := 1000000000.0 / p as real, 1000000000.0 - hz;
    DivideBack(1000000000.0, p as real);
    MulStrict(fps, k * g, d);
    MulStrict(d, p as real * hz, g);
    MulStrict(g * d, g * (p as real * hz), k);
    CeilingRegroup(fps, k, g, d, p as real, hz);
  }

  lemma CeilingRegroup(fps: real, k: real, g: real, d: real, p: real, hz: real)
    requires g * p == 1000000000.0
    ensures k * g * d == g * d * k && d * g == g * d && p * hz * g == g * (p * hz)
    ensures g * (p * hz) * k == k * (hz * 1000000000.0)
  {
    assert g * (p * hz) == g * p * hz;
  }

  /** A steady clock under a requested rate it can honour: from where it is steady, row by row one slot further, in
      slots of the period of that rate, less than one clock gap late. */
  lemma SteadySubmission(c: Config, s: Submission, gap: int, past: seq<Sample>, frames: seq<Sample>) returns (p: nat)
    requires SubmissionSound(c, s) && s.job.recHz > 0.0
    requires NotBefore(s.e.t0, Frames(s.e.log.consumed)) == past + frames && frames != [] && Steady(frames, gap)
    requires 0 < gap && Times(gap, s.job.recHz) <= 1000000000.0
    ensures Times(p, s.job.recHz) <= 1000000000.0 < Times(p + 1, s.job.recHz)
    ensures var n, d := |Kept(p, past + frames[..1])|, Cursor(p, past + frames[..1]);
            var skips := |Of(s.e.log.consumed, Skipped)|;
            forall i :: 0 <= i < |s.job.rows| && skips + i >= n ==>
              Slot(d, p, skips + i - n) <= s.job.rows[i].ts < Slot(d, p, skips + i - n) + gap
  {
    hide Sound, Steady, NotBefore, Slot, Cursor, Kept, Times, Frames, Of, PeriodNs;
    p := s.e.period;
    if gap > p {
      TimesRises(p + 1, gap, s.job.recHz);
    }
    SteadyEpisode(c, s.e, gap, past, frames);
  }

  lemma SidecarOf(c: Config, s: Submission, written: bool)
    requires SubmissionSound(c, s) && OutcomeOf(s.job, written).Captured?
    ensures TrueSidecar(s.job, OutcomeOf(s.job, written).sidecar)
  {
    hide FramesSound, CachesSound, AllAligned;
    var rows := s.job.rows;
    if |rows| > 1 {
      assert rows[0].ts <= rows[|rows| - 1].ts;
      MultipliedBack((|rows| - 1) as real, Span(rows) as real);
    }
  }

  lemma MultipliedBack(steps: real, span: real)
    requires span > 0.0
    ensures steps / (span / 1000000000.0) * span == steps * 1000000000.0
  {
    var t := span / 1000000000.0;
    assert span == t * 1000000000.0;
    assert steps / t * t == steps;
  }

  lemma RateUnderCeiling(c: Config, s: Submission, written: bool)
    requires SubmissionSound(c, s) && OutcomeOf(s.job, written).Captured?
    ensures var side := OutcomeOf(s.job, written).sidecar; var n := side.length;
            s.e.period > 0 && n >= 3 ==>
              side.fps < (n - 1) as real / (n - 2) as real * (1000000000.0 / s.e.period as real)
  {
    hide Sound, Spaced, Fps;
    if s.e.period > 0 && |s.job.rows| >= 3 {
      DecimatedSpaced(c, s.e);
      MeasuredRateCeiling(s.job.rows, s.e.period, s.job.recHz);
    }
  }

  lemma {:induction false} DoneJobOf(reports: seq<Report>, p: Report)
    requires p in reports && p.Done?
    ensures p.job in DoneJobs(reports)
  {
    if p != Last(reports) {
      DoneJobOf(Init(reports), p);
    }
  }

  // ----- Tick-schedule independence over runs -------------------------------------------------

  /** Two runs, each mid-recording, with the same start fence, grid and clock stream: their rows agree. */
  lemma RunsAgree(c: Config, rs1: seq<Recorder>, evs1: seq<Event>, rs2: seq<Recorder>, evs2: seq<Event>,
                  answer: (Topic, nat) -> Sample, stream: seq<Sample>)
    requires IsRun(c, rs1, evs1) && IsRun(c, rs2, evs2) && AllPaired(c)
    requires var a, b := Last(rs1).e, Last(rs2).e;
             && a.period == b.period && a.t0 == b.t0
             && OneAnswer(a.log.delivered, answer) && OneAnswer(b.log.delivered, answer)
             && a.log.drained <= stream && b.log.drained <= stream
    ensures Last(rs1).e.rows <= Last(rs2).e.rows || Last(rs2).e.rows <= Last(rs1).e.rows
  {
    RunSound(c, rs1, evs1, |rs1| - 1);
    RunSound(c, rs2, evs2, |rs2| - 1);
    TickScheduleIndependence(c, Last(rs1).e, Last(rs2).e, answer, stream);
  }

  // ----- Telemetry ----------------------------------------------------------------------------

  /** After every handler the last cell, if any, is the truth; frame ids tell cells apart; and while idle
      nothing of an episode is left. */
  lemma TelemetryTrue(c: Config, rs: seq<Recorder>, evs: seq<Event>)
    requires IsRun(c, rs, evs)
    ensures var r := Last(rs); var cells := r.books.cells;
            && (cells != [] ==> Last(cells).content == Content(if r.mode.Recording? then 1 else 0, |r.e.rows|, r.id))
            && (forall i, j :: 0 <= i < j < |cells| ==> cells[i].fid < cells[j].fid)
            && (forall i :: 1 <= i < |cells| ==> cells[i].content != cells[i - 1].content)
            && (r.mode.Idle? <==> r.id == "")
            && (r.mode.Idle? ==> r.e.rows == [] && r.e.deferred == [] && r.e.cache == map[] && r.e.pairs == map[])
  {
    RunSound(c, rs, evs, |rs| - 1);
  }

  /** A logger that skips unchanged frame ids logs exactly the cells that were current when it polled: what it
      skips equals what it logged last. */
  lemma TelemetryTailable(c: Config, rs: seq<Recorder>, evs: seq<Event>,
                          polls: seq<Option<Cell<Content>>>, at: seq<nat>)
    requires IsRun(c, rs, evs) && ChangeLog.PollsOf(Last(rs).books.cells, polls, at)
    ensures ChangeLog.ObserveAll(polls).logged == ChangeLog.Shown(Last(rs).books.cells, at)
  {
    TelemetryTrue(c, rs, evs);
    ChangeLog.LogsEveryChange(Last(rs).books.cells, polls, at);
  }

  /** While recording, between handlers: fewer rows than the cap, a bounded queue, bounded answer caches. */
  lemma RecordingBounded(c: Config, rs: seq<Recorder>, evs: seq<Event>)
    requires IsRun(c, rs, evs)
    ensures var r := Last(rs);
            && |r.e.rows| < 1800 && |r.e.deferred| <= 8
            && (r.e.deferred != [] ==> exists s :: s in c.others && s.paired && !Answered(s, r.e, r.e.deferred[0].fid))
            && (forall t :: t in r.e.pairs ==> |r.e.pairs[t]| <= 32)
  {
    RunSound(c, rs, evs, |rs| - 1);
  }

  // ----- The row cap --------------------------------------------------------------------------

  /** One camera at its native rate, filming one frame per tick. */
  const CAM := Config(Source("cam", "image", 30.0, false), [])

  function FrameTick(k: nat, now: real): Event {
    Tick(Poll([], [Sample(k, k, 0)], 0.0), [], now)
  }

  function Filming(n: nat): Recorder {
    if n == 0 then
      Next(CAM, Boot([]), FILM_START)
    else Next(CAM, Filming(n - 1), FrameTick(n, 0.0))
  }

  lemma OneFramePass(r: Recorder, k: nat)
    requires r.mode.Recording? && r.e.deferred == [] && r.e.period == 0 && r.e.t0 == 0 && r.e.lastTs <= k
    ensures var r' := CapturePass(CAM, r, Poll([], [Sample(k, k, 0)], 0.0));
            && r'.mode.Recording? && r'.id == r.id && r'.clockSeen == 0.0
            && r'.pending == r.pending && r'.books == r.books
            && r'.e.deferred == [] && r'.e.period == 0 && r'.e.t0 == 0 && r'.e.lastTs == k
            && |r'.e.rows| == |r.e.rows| + 1
  {
    var f := Sample(k, k, 0);
    var e := Enqueue(r.e, [f]);
    assert e.deferred == [f];
    assert FateOf(CAM, e, f).Recorded?;
    var e' := Consume(CAM, e, f).(deferred := e.deferred[1..]);
    assert Pump(CAM, e') == Going(e');
    assert Pump(CAM, e) == Going(e');
  }

  ghost predicate Reel(r: Recorder, n: nat) {
    && r.mode.Recording? && r.id == "a" && r.clockSeen == 0.0 && r.pending == [] && r.books.reports == []
    && r.e.deferred == [] && r.e.period == 0 && r.e.t0 == 0 && r.e.lastTs == n && |r.e.rows| == n
  }

  lemma NothingToCollect(r: Recorder)
    requires r.pending == []
    ensures Collect(r, []) == r
  {
    assert r.rung + Rings([]) == r.rung && r.books.reports + [] == r.books.reports;
  }

  lemma FilmOne(r: Recorder, n: nat)
    requires Reel(r, n) && n + 1 < MAX_FRAMES
    ensures Reel(Next(CAM, r, FrameTick(n + 1, 0.0)), n + 1)
  {
    hide CapturePass, Collect;
    NothingToCollect(r);
    OneFramePass(r, n + 1);
  }

  lemma FilmStart()
    ensures Reel(Filming(0), 0)
  {
  }

  lemma {:induction false} FilmingRows(n: nat)
    requires n < MAX_FRAMES
    ensures Reel(Filming(n), n)
  {
    hide Next, Reel;
    if n == 0 {
      FilmStart();
    } else {
      FilmingRows(n - 1);
      FilmOne(Filming(n - 1), n - 1);
    }
  }

  const FILM_START := Control(CONTROL, CTL_START, Env(Poll([], [], 0.0), 0, 0.0, "", None, "a"))

  lemma LastFrameLost()
    ensures var r := Next(CAM, Filming(MAX_FRAMES - 1), FrameTick(MAX_FRAMES, 2.0));
            && r.mode.Idle? && r.books.submitted == Filming(MAX_FRAMES - 1).books.submitted
            && r.books.reports == [Lost("a")]
  {
    hide Filming, CapturePass, Collect;
    FilmingRows(MAX_FRAMES - 1);
    var r := Filming(MAX_FRAMES - 1);
    NothingToCollect(r);
    OneFramePass(r, MAX_FRAMES);
  }

  /** The cap is meant to stop an episode and never discard it. It can: in this run one frame arrives per tick, the tick
      of the 1800th stalls for more than a second before its timeout check, and all rows are lost. */
  lemma CapCanDiscard() returns (rs: seq<Recorder>, evs: seq<Event>)
    ensures IsRun(CAM, rs, evs) && |evs| == MAX_FRAMES + 1
    ensures |rs[MAX_FRAMES].e.rows| == MAX_FRAMES - 1 && evs[MAX_FRAMES] == FrameTick(MAX_FRAMES, 2.0)
    ensures var pass := Capture(CAM, rs[MAX_FRAMES].e, [], [Sample(MAX_FRAMES, MAX_FRAMES, 0)]);
            pass.Going? && |pass.e.rows| == MAX_FRAMES
    ensures Last(rs).mode.Idle? && Last(rs).books.submitted == rs[MAX_FRAMES].books.submitted
    ensures Last(rs).books.reports == [Lost("a")]
  {
    hide Filming, Next;
    evs := [FILM_START] +
           seq(MAX_FRAMES, i requires 0 <= i => FrameTick(i + 1, if i == MAX_FRAMES - 1 then 2.0 else 0.0));
    var last := Next(CAM, Filming(MAX_FRAMES - 1), FrameTick(MAX_FRAMES, 2.0));
    rs := [Boot([])] + seq(MAX_FRAMES, i requires 0 <= i < MAX_FRAMES => Filming(i)) + [last];
    forall i | 0 <= i < |evs|
      ensures Admissible(CAM, rs[i], evs[i]) && EventFits(CAM, evs[i]) && rs[i + 1] == Next(CAM, rs[i], evs[i])
    {
      FilmingStep(i);
    }
    FilmingRows(MAX_FRAMES - 1);
    OneFramePass(Filming(MAX_FRAMES - 1), MAX_FRAMES);
    LastFrameLost();
  }

  lemma FilmingStep(n: nat)
    ensures Filming(n) ==
            if n == 0 then Next(CAM, Boot([]), FILM_START) else Next(CAM, Filming(n - 1), FrameTick(n, 0.0))
  {
    hide Next;
  }

  // ----- The fence ----------------------------------------------------------------------------

  const LATE_START := Control(CONTROL, CTL_START, Env(Poll([[]], [], 0.0), 100, 0.0, "", None, "a"))

  /** The run of FencedFramesAbort: a START, a tick that drains the frames queued while idle, and a tick with the first
      frame of the recording and its answer, which loses the episode. */
  lemma FencedFramesLoseEpisode() returns (rs: seq<Recorder>, evs: seq<Event>)
    ensures IsRun(LOCKSTEP, rs, evs)
    ensures evs == [LATE_START, Tick(Poll([[]], IDLE_FRAMES, 0.0), [], 0.0),
                    Tick(Poll([[LIVE_ANSWER]], [LIVE_FRAME], 0.0), [], 0.0)]
    ensures rs[1].mode.Recording? && rs[1].e == Fresh(0, 100)
    ensures Last(rs).mode.Idle? && Last(rs).books.reports == [Lost("a")]
  {
    hide Capture;
    FencedFramesAbort();
    evs := [LATE_START, Tick(Poll([[]], IDLE_FRAMES, 0.0), [], 0.0),
            Tick(Poll([[LIVE_ANSWER]], [LIVE_FRAME], 0.0), [], 0.0)];
    var r0 := Boot([]);
    var r1 := Next(LOCKSTEP, r0, evs[0]);
    NothingToCollect(r1);
    var r2 := Next(LOCKSTEP, r1, evs[1]);
    NothingToCollect(r2);
    var r3 := Next(LOCKSTEP, r2, evs[2]);
    rs := [r0, r1, r2, r3];
  }
}
