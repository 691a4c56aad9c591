/** What holds after every handler of every run of the recorder. */
module RecorderRuns {
  import opened Basics
  import opened Grid
  import opened CaptureEngine
  import opened Finalize
  import opened RecorderModel

  // ----- The invariant, by concern ------------------------------------------------------------

  /** Idle exactly when there is no identity, and then nothing of an episode is left. */
  ghost predicate ModeSound(r: Recorder) {
    && (r.mode.Idle? <==> r.id == "")
    && (r.mode.Idle? ==> r.e == Fresh(0, 0))
  }

  ghost predicate EpisodeSound(c: Config, r: Recorder) {
    && Sound(c, r.e)
    && r.recHz >= 0.0
    && (r.mode.Recording? ==> r.e.period == PeriodNs(r.recHz))
    && forall s :: s in r.books.submitted ==> SubmissionSound(c, s)
  }

  /** What every finalize job was handed: the rows of a sound, bounded episode and at most its own verdict. */
  ghost predicate SubmissionSound(c: Config, s: Submission) {
    && Sound(c, s.e)
    && s.job.rows == s.e.rows
    && s.job.recHz >= 0.0 && s.e.period == PeriodNs(s.job.recHz)
    && s.job.id != ""
    && |s.job.rows| <= MAX_FRAMES - 1 + 2 * CLOCK_BUFFER
    && (s.job.verdict.Some? ==> s.job.verdict.value.captureId == Some(s.job.id))
  }

  function LostIds(reports: seq<Report>): seq<string> {
    if reports == [] then [] else
      LostIds(Init(reports)) + match Last(reports) case Lost(id) => [id] case Done(_, _) => []
  }

  function DoneJobs(reports: seq<Report>): seq<Job> {
    if reports == [] then [] else
      DoneJobs(Init(reports)) + match Last(reports) case Lost(_) => [] case Done(job, _) => [job]
  }

  function Jobs(submitted: seq<Submission>): seq<Job> {
    if submitted == [] then [] else Jobs(Init(submitted)) + [Last(submitted).job]
  }

  function JobIds(jobs: seq<Job>): seq<string> {
    if jobs == [] then [] else JobIds(Init(jobs)) + [Last(jobs).id]
  }

  function Current(r: Recorder): multiset<string> {
    if r.mode.Recording? then multiset{r.id} else multiset{}
  }

  /** Every accepted start is, exactly once: discarded by the user, aborted, submitted, or being recorded. */
  ghost predicate StartsBalance(r: Recorder) {
    multiset(r.books.started) ==
    multiset(r.books.discarded) + multiset(LostIds(r.books.reports)) +
    multiset(JobIds(Jobs(r.books.submitted))) + Current(r)
  }

  /** Every submitted job is, exactly once: collected or pending. */
  ghost predicate JobsBalance(r: Recorder) {
    multiset(Jobs(r.books.submitted)) == multiset(DoneJobs(r.books.reports)) + multiset(r.pending)
  }

  ghost predicate ReportSound(p: Report) {
    p.Done? ==> exists written :: p.outcome == OutcomeOf(p.job, written)
  }

  /** The rings are the reports, in order, and a collected job's report is its real outcome. */
  ghost predicate ReportsSound(r: Recorder) {
    && r.rung == Rings(r.books.reports)
    && forall p :: p in r.books.reports ==> ReportSound(p)
  }

  ghost predicate BooksBalance(r: Recorder) {
    StartsBalance(r) && JobsBalance(r) && ReportsSound(r)
  }

  function Merged(jobs: seq<Job>): seq<Request> {
    if jobs == [] then [] else
      Merged(Init(jobs)) + if Last(jobs).verdict.Some? then [Last(jobs).verdict.value] else []
  }

  /** Every verdict ever submitted is, exactly once: in the inbox, quarantined, or merged into one job. */
  ghost predicate VerdictsBalance(r: Recorder) {
    multiset(r.books.sent) == multiset(r.inbox) + multiset(r.parked) + multiset(Merged(Jobs(r.books.submitted)))
  }

  /** Published cells are numbered 1, 2, ... and each differs from the one before. */
  ghost predicate CellsSound(r: Recorder) {
    && r.teleFid == |r.books.cells|
    && (forall i :: 0 <= i < |r.books.cells| ==> r.books.cells[i].fid == i + 1)
    && (forall i :: 1 <= i < |r.books.cells| ==> r.books.cells[i].content != r.books.cells[i - 1].content)
    && r.teleLast == (if r.books.cells == [] then None else Some(Last(r.books.cells).content))
  }

  ghost predicate StartsDistinct(r: Recorder) {
    forall i, j :: 0 <= i < j < |r.books.started| ==> r.books.started[i] != r.books.started[j]
  }

  ghost predicate Inv(c: Config, r: Recorder) {
    ModeSound(r) && EpisodeSound(c, r) && BooksBalance(r) && VerdictsBalance(r) && CellsSound(r) && StartsDistinct(r)
  }

  /** Between handlers: the last cell is current, the row cap has not been reached, and the queue is
      bounded with a head that still lacks an answer. */
  ghost predicate Settled(c: Config, r: Recorder) {
    && (r.books.cells != [] ==> Last(r.books.cells).content == ContentOf(r))
    && |r.e.rows| < MAX_FRAMES
    && |r.e.deferred| <= CLOCK_BUFFER
    && (r.e.deferred != [] ==> !Matched(c, r.e, r.e.deferred[0]))
  }

  // ----- Pieces keep it -----------------------------------------------------------------------

  lemma BootSound(c: Config, inbox: seq<Request>)
    ensures Inv(c, Boot(inbox)) && Settled(c, Boot(inbox))
  {
    FreshSound(c, 0, 0);
    assert Rings([]) == [];
  }

  lemma TelemetryCells(r: Recorder)
    requires CellsSound(r)
    ensures var t := Telemetry(r);
            && CellsSound(t)
            && t == r.(teleFid := t.teleFid, teleLast := t.teleLast, books := r.books.(cells := t.books.cells))
            && t.books.cells != [] && Last(t.books.cells).content == ContentOf(t)
  {
  }

  lemma MoveToSecond<T>(whole: multiset<T>, a: multiset<T>, b: multiset<T>, d: multiset<T>, x: multiset<T>)
    requires whole == a + b + d + x
    ensures whole == a + (b + x) + d + multiset{}
  {
  }

  lemma MoveToThird<T>(whole: multiset<T>, a: multiset<T>, b: multiset<T>, d: multiset<T>, x: multiset<T>)
    requires whole == a + b + d + x
    ensures whole == a + b + (d + x) + multiset{}
  {
  }

  lemma MoveToFirst<T>(whole: multiset<T>, a: multiset<T>, b: multiset<T>, d: multiset<T>, x: multiset<T>)
    requires whole == a + b + d + x
    ensures whole == (a + x) + b + d + multiset{}
  {
  }

  lemma UnchosenParts(reqs: seq<Request>, id: string)
    ensures multiset(reqs) == multiset(Unchosen(reqs, id)) +
            (if Chosen(reqs, id).Some? then multiset{Chosen(reqs, id).value} else multiset{})
  {
    var k := FirstNaming(reqs, id);
    if k < |reqs| {
      assert reqs == (reqs[..k] + [reqs[k]]) + reqs[k + 1..];
      Push(reqs[..k], reqs[k]);
      Joined(reqs[..k] + [reqs[k]], reqs[k + 1..]);
      Joined(reqs[..k], reqs[k + 1..]);
    }
  }

  lemma SnocReports(reports: seq<Report>, p: Report)
    ensures LostIds(reports + [p]) == LostIds(reports) + (match p case Lost(id) => [id] case Done(_, _) => [])
    ensures DoneJobs(reports + [p]) == DoneJobs(reports) + (match p case Lost(_) => [] case Done(job, _) => [job])
    ensures Rings(reports + [p]) == Rings(reports) + [RingOf(p)]
  {
    SnocParts(reports, p);
  }

  lemma SnocJobs(submitted: seq<Submission>, s: Submission)
    ensures Jobs(submitted + [s]) == Jobs(submitted) + [s.job]
    ensures JobIds(Jobs(submitted + [s])) == JobIds(Jobs(submitted)) + [s.job.id]
    ensures Merged(Jobs(submitted + [s])) ==
            Merged(Jobs(submitted)) + if s.job.verdict.Some? then [s.job.verdict.value] else []
  {
    SnocParts(submitted, s);
    SnocParts(Jobs(submitted), s.job);
  }

  // Abort: the current identity moves to the reports.

  lemma AbortFields(r: Recorder)
    requires CellsSound(r)
    ensures var r' := Abort(r);
            && CellsSound(r') && r'.mode.Idle? && r'.id == "" && r'.e == Fresh(0, 0) && r'.recHz == 0.0
            && r'.pending == r.pending && r'.rung == r.rung + [EP_FAILED]
            && r'.inbox == [] && r'.parked == r.parked + Unchosen(r.inbox, "")
            && r'.books == r.books.(reports := r.books.reports + [Lost(r.id)], cells := r'.books.cells)
            && r'.books.cells != [] && Last(r'.books.cells).content == ContentOf(r')
  {
    TelemetryCells(Reset(DrainVerdicts(r, "")).(mode := Idle));
  }

  lemma AbortBooks(r: Recorder)
    requires BooksBalance(r) && CellsSound(r) && r.mode.Recording?
    ensures BooksBalance(Abort(r))
  {
    hide Abort, CellsSound;
    AbortFields(r);
    var reports := r.books.reports;
    SnocReports(reports, Lost(r.id));
    Push(LostIds(reports), r.id);
    MoveToSecond(multiset(r.books.started), multiset(r.books.discarded), multiset(LostIds(reports)),
                 multiset(JobIds(Jobs(r.books.submitted))), multiset{r.id});
    assert DoneJobs(reports + [Lost(r.id)]) == DoneJobs(reports);
  }

  lemma AbortVerdicts(r: Recorder)
    requires VerdictsBalance(r) && CellsSound(r)
    ensures VerdictsBalance(Abort(r))
  {
    hide Abort, CellsSound;
    AbortFields(r);
    UnchosenParts(r.inbox, "");
  }

  lemma AbortEpisode(c: Config, r: Recorder)
    requires EpisodeSound(c, r) && CellsSound(r)
    ensures EpisodeSound(c, Abort(r))
  {
    hide Abort, CellsSound, Sound;
    AbortFields(r);
    FreshSound(c, 0, 0);
  }

  lemma AbortKeeps(c: Config, r: Recorder)
    requires Inv(c, r) && r.mode.Recording?
    ensures Inv(c, Abort(r)) && Settled(c, Abort(r)) && Abort(r).mode.Idle?
  {
    hide Abort, BooksBalance, VerdictsBalance, CellsSound, EpisodeSound;
    AbortFields(r);
    AbortBooks(r);
    AbortVerdicts(r);
    AbortEpisode(c, r);
  }

  // Submit: the current identity and the verdict naming it move to the submitted jobs.

  lemma SubmitFields(r: Recorder)
    requires CellsSound(r)
    ensures var r' := SubmitFinalize(r);
            && CellsSound(r') && r'.mode.Idle? && r'.id == "" && r'.e == Fresh(0, 0) && r'.recHz == 0.0
            && r'.pending == r.pending + [JobOf(r)] && r'.rung == r.rung
            && r'.inbox == [] && r'.parked == r.parked + Unchosen(r.inbox, r.id)
            && r'.books ==
               r.books.(submitted := r.books.submitted + [Submission(JobOf(r), r.e)], cells := r'.books.cells)
            && r'.books.cells != [] && Last(r'.books.cells).content == ContentOf(r')
  {
    TelemetryCells(Reset(DrainVerdicts(r, r.id).(
      pending := r.pending + [JobOf(r)],
      books := r.books.(submitted := r.books.submitted + [Submission(JobOf(r), r.e)]))).(mode := Idle));
  }

  lemma SubmitStarts(r: Recorder)
    requires StartsBalance(r) && CellsSound(r) && r.mode.Recording?
    ensures StartsBalance(SubmitFinalize(r))
  {
    hide SubmitFinalize, CellsSound;
    SubmitFields(r);
    SnocJobs(r.books.submitted, Submission(JobOf(r), r.e));
    var ids := JobIds(Jobs(r.books.submitted));
    Push(ids, r.id);
    MoveToThird(multiset(r.books.started), multiset(r.books.discarded), multiset(LostIds(r.books.reports)),
                multiset(ids), multiset{r.id});
  }

  lemma SubmitJobs(r: Recorder)
    requires JobsBalance(r) && CellsSound(r)
    ensures JobsBalance(SubmitFinalize(r))
  {
    hide SubmitFinalize, CellsSound;
    SubmitFields(r);
    SnocJobs(r.books.submitted, Submission(JobOf(r), r.e));
    Push(r.pending, JobOf(r));
    Push(Jobs(r.books.submitted), JobOf(r));
  }

  lemma SubmitBooks(r: Recorder)
    requires BooksBalance(r) && CellsSound(r) && r.mode.Recording?
    ensures BooksBalance(SubmitFinalize(r))
  {
    hide SubmitFinalize, CellsSound, StartsBalance, JobsBalance;
    SubmitStarts(r);
    SubmitJobs(r);
    SubmitFields(r);
  }

  lemma SubmitVerdicts(r: Recorder)
    requires VerdictsBalance(r) && CellsSound(r)
    ensures VerdictsBalance(SubmitFinalize(r))
  {
    hide SubmitFinalize, CellsSound;
    SubmitFields(r);
    SnocJobs(r.books.submitted, Submission(JobOf(r), r.e));
    UnchosenParts(r.inbox, r.id);
  }

  lemma SubmitEpisode(c: Config, r: Recorder)
    requires EpisodeSound(c, r) && CellsSound(r) && r.mode.Recording? && r.id != ""
    requires |r.e.rows| <= MAX_FRAMES - 1 + 2 * CLOCK_BUFFER
    ensures EpisodeSound(c, SubmitFinalize(r))
  {
    hide SubmitFinalize, CellsSound, Sound;
    SubmitFields(r);
    FreshSound(c, 0, 0);
    assert SubmissionSound(c, Submission(JobOf(r), r.e));
  }

  lemma SubmitKeeps(c: Config, r: Recorder)
    requires Inv(c, r) && r.mode.Recording? && |r.e.rows| <= MAX_FRAMES - 1 + 2 * CLOCK_BUFFER
    ensures Inv(c, SubmitFinalize(r)) && Settled(c, SubmitFinalize(r)) && SubmitFinalize(r).mode.Idle?
  {
    hide SubmitFinalize, BooksBalance, VerdictsBalance, CellsSound, EpisodeSound;
    SubmitBooks(r);
    SubmitVerdicts(r);
    SubmitEpisode(c, r);
    SubmitFields(r);
  }

  lemma DiscardFields(r: Recorder)
    requires CellsSound(r)
    ensures var r' := Discard(r);
            && CellsSound(r') && r'.mode.Idle? && r'.id == "" && r'.e == Fresh(0, 0) && r'.recHz == 0.0
            && r'.pending == r.pending && r'.rung == r.rung
            && r'.inbox == [] && r'.parked == r.parked + Unchosen(r.inbox, "")
            && r'.books == r.books.(discarded := r.books.discarded + [r.id], cells := r'.books.cells)
            && r'.books.cells != [] && Last(r'.books.cells).content == ContentOf(r')
  {
    TelemetryCells(Reset(DrainVerdicts(r, "")).(
      mode := Idle, books := r.books.(discarded := r.books.discarded + [r.id])));
  }

  lemma DiscardBooks(r: Recorder)
    requires BooksBalance(r) && CellsSound(r) && r.mode.Recording?
    ensures BooksBalance(Discard(r))
  {
    hide Discard, CellsSound, ReportSound;
    DiscardFields(r);
    Push(r.books.discarded, r.id);
    MoveToFirst(multiset(r.books.started), multiset(r.books.discarded), multiset(LostIds(r.books.reports)),
                multiset(JobIds(Jobs(r.books.submitted))), multiset{r.id});
  }

  lemma DiscardVerdicts(r: Recorder)
    requires VerdictsBalance(r) && CellsSound(r)
    ensures VerdictsBalance(Discard(r))
  {
    hide Discard, CellsSound;
    DiscardFields(r);
    UnchosenParts(r.inbox, "");
  }

  lemma DiscardEpisode(c: Config, r: Recorder)
    requires EpisodeSound(c, r) && CellsSound(r)
    ensures EpisodeSound(c, Discard(r))
  {
    hide Discard, CellsSound, Sound;
    DiscardFields(r);
    FreshSound(c, 0, 0);
  }

  lemma DiscardKeeps(c: Config, r: Recorder)
    requires Inv(c, r) && r.mode.Recording?
    ensures Inv(c, Discard(r)) && Settled(c, Discard(r))
  {
    hide Discard, BooksBalance, VerdictsBalance, CellsSound, EpisodeSound;
    DiscardFields(r);
    DiscardBooks(r);
    DiscardVerdicts(r);
    DiscardEpisode(c, r);
  }

  lemma StartFields(c: Config, r: Recorder, env: Env)
    requires CellsSound(r)
    ensures var r' := Start(c, r, env); var hz := RecordHz(env.requestedHz, c.clock.rateHz);
            && CellsSound(r') && r'.mode.Recording? && r'.id == env.newId && r'.recHz == hz
            && r'.e == Fresh(PeriodNs(hz), env.wallNs)
            && r'.pending == r.pending && r'.rung == r.rung && r'.inbox == r.inbox && r'.parked == r.parked
            && r'.books == r.books.(started := r.books.started + [env.newId], cells := r'.books.cells)
            && r'.books.cells != [] && Last(r'.books.cells).content == ContentOf(r')
  {
    var hz := RecordHz(env.requestedHz, c.clock.rateHz);
    TelemetryCells(Reset(r).(
      mode := Recording, id := env.newId, context := env.context, recHz := hz, clockSeen := env.now,
      e := Fresh(PeriodNs(hz), env.wallNs),
      books := r.books.(started := r.books.started + [env.newId])));
  }

  lemma StartBooks(c: Config, r: Recorder, env: Env)
    requires BooksBalance(r) && CellsSound(r) && r.mode.Idle?
    ensures BooksBalance(Start(c, r, env))
  {
    hide Start, CellsSound, ReportSound;
    StartFields(c, r, env);
    Push(r.books.started, env.newId);
  }

  lemma StartEpisode(c: Config, r: Recorder, env: Env)
    requires EpisodeSound(c, r) && CellsSound(r)
    ensures EpisodeSound(c, Start(c, r, env))
  {
    hide Start, CellsSound, Sound;
    StartFields(c, r, env);
    FreshSound(c, PeriodNs(RecordHz(env.requestedHz, c.clock.rateHz)), env.wallNs);
  }

  lemma StartKeeps(c: Config, r: Recorder, env: Env)
    requires Inv(c, r) && r.mode.Idle? && env.newId != "" && env.newId !in r.books.started
    ensures Inv(c, Start(c, r, env)) && Settled(c, Start(c, r, env))
  {
    hide Start, BooksBalance, CellsSound, EpisodeSound;
    StartFields(c, r, env);
    StartBooks(c, r, env);
    StartEpisode(c, r, env);
  }

  /** Collecting splits the pending jobs into those reported and those still pending; it loses no episode. */
  lemma {:induction false} CollectedParts(pending: seq<Job>, jobs: seq<JobStatus>)
    ensures multiset(pending) == multiset(DoneJobs(Collected(pending, jobs))) + multiset(Still(pending, jobs))
    ensures LostIds(Collected(pending, jobs)) == []
  {
    hide OutcomeOf;
    if pending != [] {
      var front, job := Init(pending), Last(pending);
      var done, still := Collected(front, jobs), Still(front, jobs);
      CollectedParts(front, jobs);
      assert pending == front + [job];
      Push(front, job);
      AddEither(multiset(front), multiset(DoneJobs(done)), multiset(still), multiset{job});
      match StatusOf(jobs, |pending| - 1)
      case Running =>
        assert Collected(pending, jobs) == done;
        Push(still, job);
      case Finished(written) =>
        assert Still(pending, jobs) == still;
        SnocReports(done, Done(job, OutcomeOf(job, written)));
        Push(DoneJobs(done), job);
    }
  }

  /** How many of the first n pending jobs are finished. */
  function DoneBefore(jobs: seq<JobStatus>, n: nat): (k: nat)
    ensures k <= n
  {
    if n == 0 then 0 else DoneBefore(jobs, n - 1) + if n - 1 < |jobs| && jobs[n - 1].Finished? then 1 else 0
  }

  lemma {:induction false} CollectedCount(pending: seq<Job>, jobs: seq<JobStatus>)
    ensures |Collected(pending, jobs)| == DoneBefore(jobs, |pending|)
    ensures |Still(pending, jobs)| == |pending| - DoneBefore(jobs, |pending|)
  {
    hide OutcomeOf;
    if pending != [] {
      CollectedCount(Init(pending), jobs);
    }
  }

  /** Pending job i is reported, with the outcome of its own bundle, exactly if it is finished; otherwise it stays
      pending. Both keep their order. */
  lemma {:induction false} CollectedAt(pending: seq<Job>, jobs: seq<JobStatus>, i: nat)
    requires i < |pending|
    ensures var k := DoneBefore(jobs, i); var done, still := Collected(pending, jobs), Still(pending, jobs);
            if i < |jobs| && jobs[i].Finished? then
              k < |done| && done[k] == Done(pending[i], OutcomeOf(pending[i], jobs[i].written))
            else i - k < |still| && still[i - k] == pending[i]
  {
    hide OutcomeOf;
    CollectedCount(Init(pending), jobs);
    if i < |pending| - 1 {
      CollectedAt(Init(pending), jobs, i);
      assert Init(pending)[i] == pending[i];
    }
  }

  lemma {:induction false} CollectedSound(pending: seq<Job>, jobs: seq<JobStatus>)
    ensures forall p :: p in Collected(pending, jobs) ==> ReportSound(p)
  {
    if pending != [] {
      CollectedSound(Init(pending), jobs);
    }
  }

  lemma {:induction false} ConcatReports(a: seq<Report>, b: seq<Report>)
    ensures LostIds(a + b) == LostIds(a) + LostIds(b)
    ensures DoneJobs(a + b) == DoneJobs(a) + DoneJobs(b)
    ensures Rings(a + b) == Rings(a) + Rings(b)
  {
    if b == [] {
      assert a + b == a;
    } else {
      hide LostIds, DoneJobs, Rings;
      ConcatReports(a, Init(b));
      AppendSnoc(a, b);
      Unsnoc(b);
      SnocReports(a + Init(b), Last(b));
      SnocReports(Init(b), Last(b));
      Assoc(Rings(a), Rings(Init(b)), [RingOf(Last(b))]);
    }
  }

  lemma CollectStarts(r: Recorder, jobs: seq<JobStatus>)
    requires StartsBalance(r)
    ensures StartsBalance(Collect(r, jobs))
  {
    var done := Collected(r.pending, jobs);
    CollectedParts(r.pending, jobs);
    ConcatReports(r.books.reports, done);
    assert LostIds(r.books.reports + done) == LostIds(r.books.reports);
  }

  lemma CollectJobs(r: Recorder, jobs: seq<JobStatus>)
    requires JobsBalance(r)
    ensures JobsBalance(Collect(r, jobs))
  {
    var done, still := Collected(r.pending, jobs), Still(r.pending, jobs);
    CollectedParts(r.pending, jobs);
    ConcatReports(r.books.reports, done);
    SplitThird(multiset(Jobs(r.books.submitted)), multiset(DoneJobs(r.books.reports)),
               multiset(DoneJobs(done)), multiset(still), multiset(r.pending));
    Joined(DoneJobs(r.books.reports), DoneJobs(done));
  }

  lemma SplitThird<T>(whole: multiset<T>, a: multiset<T>, b: multiset<T>, d: multiset<T>, both: multiset<T>)
    requires whole == a + both && both == b + d
    ensures whole == (a + b) + d
  {
  }

  lemma CollectReports(r: Recorder, jobs: seq<JobStatus>)
    requires ReportsSound(r)
    ensures ReportsSound(Collect(r, jobs))
  {
    hide ReportSound;
    CollectedSound(r.pending, jobs);
    ConcatReports(r.books.reports, Collected(r.pending, jobs));
  }

  lemma CollectBooks(r: Recorder, jobs: seq<JobStatus>)
    requires BooksBalance(r)
    ensures BooksBalance(Collect(r, jobs))
  {
    hide Collect, StartsBalance, JobsBalance, ReportsSound;
    CollectStarts(r, jobs);
    CollectJobs(r, jobs);
    CollectReports(r, jobs);
  }

  lemma CollectEpisode(c: Config, r: Recorder, jobs: seq<JobStatus>)
    requires EpisodeSound(c, r)
    ensures EpisodeSound(c, Collect(r, jobs))
  {
    hide Sound, SubmissionSound;
  }

  lemma CollectKeeps(c: Config, r: Recorder, jobs: seq<JobStatus>)
    requires Inv(c, r)
    ensures Inv(c, Collect(r, jobs))
    ensures Settled(c, r) ==> Settled(c, Collect(r, jobs))
  {
    hide BooksBalance, EpisodeSound, Matched;
    CollectBooks(r, jobs);
    CollectEpisode(c, r, jobs);
  }

  lemma CapturePassKeeps(c: Config, r: Recorder, p: Poll)
    requires Inv(c, r) && Settled(c, r) && r.mode.Recording? && PollFits(c, p) && |p.frames| <= CLOCK_BUFFER
    ensures var r' := CapturePass(c, r, p);
            && Inv(c, r')
            && (r'.mode.Idle? ==> Settled(c, r'))
            && (r'.mode.Recording? ==>
                  && r' == r.(e := r'.e, clockSeen := r'.clockSeen)
                  && |r'.e.rows| <= MAX_FRAMES - 1 + 2 * CLOCK_BUFFER
                  && |r'.e.deferred| <= CLOCK_BUFFER
                  && (r'.e.deferred != [] ==> !Matched(c, r'.e, r'.e.deferred[0])))
  {
    if Capture(c, r.e, p.answers, p.frames).Going? {
      CaptureSound(c, r.e, p.answers, p.frames);
    } else {
      AbortKeeps(c, r);
    }
  }

  // ----- Handlers keep it ---------------------------------------------------------------------

  /** What the recorder's surroundings promise: polls are shaped and bounded like the queues they drain,
      and a minted identity is new. */
  ghost predicate Admissible(c: Config, r: Recorder, ev: Event) {
    match ev
    case Control(_, _, env) =>
      && PollFits(c, env.poll) && |env.poll.frames| <= CLOCK_BUFFER
      && env.newId != "" && env.newId !in r.books.started
    case Tick(p, _, _) => PollFits(c, p) && |p.frames| <= CLOCK_BUFFER
    case Submit(_) => true
  }

  lemma TelemetryKeeps(c: Config, r: Recorder)
    requires Inv(c, r)
    ensures Inv(c, Telemetry(r))
    ensures var t := Telemetry(r); t.mode == r.mode && t.e == r.e && Last(t.books.cells).content == ContentOf(t)
  {
    hide Telemetry, Sound, CellsSound;
    TelemetryCells(r);
  }

  /** The end of a tick: tell, then abort on a silent clock, or stop at the row cap. */
  lemma LimitsKeep(c: Config, r: Recorder, now: real)
    requires Inv(c, r) && r.mode.Recording? && |r.e.rows| <= MAX_FRAMES - 1 + 2 * CLOCK_BUFFER
    requires |r.e.deferred| <= CLOCK_BUFFER && (r.e.deferred != [] ==> !Matched(c, r.e, r.e.deferred[0]))
    ensures Inv(c, Limits(r, now)) && Settled(c, Limits(r, now))
  {
    hide Inv, Telemetry, Abort, SubmitFinalize, Matched;
    TelemetryKeeps(c, r);
    var told := Telemetry(r);
    if now - told.clockSeen > CLOCK_TIMEOUT_S {
      AbortKeeps(c, told);
    } else if |told.e.rows| >= MAX_FRAMES {
      SubmitKeeps(c, told);
    }
  }

  lemma TickKeeps(c: Config, r: Recorder, p: Poll, jobs: seq<JobStatus>, now: real)
    requires Inv(c, r) && Settled(c, r) && PollFits(c, p) && |p.frames| <= CLOCK_BUFFER
    ensures Inv(c, OnTick(c, r, p, jobs, now)) && Settled(c, OnTick(c, r, p, jobs, now))
  {
    hide Inv, Settled, Limits;
    CollectKeeps(c, r, jobs);
    var collected := Collect(r, jobs);
    if collected.mode.Recording? {
      CapturePassKeeps(c, collected, p);
      var passed := CapturePass(c, collected, p);
      if passed.mode.Recording? {
        LimitsKeep(c, passed, now);
      }
    }
  }

  lemma ControlKeeps(c: Config, r: Recorder, channel: string, code: nat, env: Env)
    requires Inv(c, r) && Settled(c, r) && Admissible(c, r, Control(channel, code, env))
    ensures Inv(c, OnEvent(c, r, channel, code, env)) && Settled(c, OnEvent(c, r, channel, code, env))
  {
    hide Inv, Settled, Start, Discard;
    if channel == CONTROL {
      if code == CTL_START && r.mode.Idle? {
        StartKeeps(c, r, env);
      } else if code == CTL_DISCARD && r.mode.Recording? {
        DiscardKeeps(c, r);
      } else if code == CTL_STOP && r.mode.Recording? {
        CapturePassKeeps(c, r, env.poll);
        if CapturePass(c, r, env.poll).mode.Recording? {
          SubmitKeeps(c, CapturePass(c, r, env.poll));
        }
      }
    }
  }

  lemma AddToFirst<T>(whole: multiset<T>, a: multiset<T>, b: multiset<T>, d: multiset<T>, x: multiset<T>)
    requires whole == a + b + d
    ensures whole + x == (a + x) + b + d
  {
  }

  lemma ArrivalVerdicts(r: Recorder, v: Request)
    requires VerdictsBalance(r)
    ensures VerdictsBalance(Arrival(r, v))
  {
    Push(r.inbox, v);
    Push(r.books.sent, v);
    AddToFirst(multiset(r.books.sent), multiset(r.inbox), multiset(r.parked),
               multiset(Merged(Jobs(r.books.submitted))), multiset{v});
  }

  lemma ArrivalOthers(c: Config, r: Recorder, v: Request)
    requires EpisodeSound(c, r) && BooksBalance(r)
    ensures EpisodeSound(c, Arrival(r, v)) && BooksBalance(Arrival(r, v))
  {
    hide Sound, SubmissionSound, ReportSound;
  }

  lemma ArrivalKeeps(c: Config, r: Recorder, v: Request)
    requires Inv(c, r) && Settled(c, r)
    ensures Inv(c, Arrival(r, v)) && Settled(c, Arrival(r, v))
  {
    hide VerdictsBalance, EpisodeSound, BooksBalance, Matched;
    ArrivalVerdicts(r, v);
    ArrivalOthers(c, r, v);
  }

  lemma NextKeeps(c: Config, r: Recorder, ev: Event)
    requires Inv(c, r) && Settled(c, r) && Admissible(c, r, ev)
    ensures EventFits(c, ev) && Inv(c, Next(c, r, ev)) && Settled(c, Next(c, r, ev))
  {
    hide Inv, Settled, OnEvent, OnTick, Arrival;
    match ev
    case Control(channel, code, env) => ControlKeeps(c, r, channel, code, env);
    case Tick(p, jobs, now) => TickKeeps(c, r, p, jobs, now);
    case Submit(v) => ArrivalKeeps(c, r, v);
  }

  // ----- Every run ----------------------------------------------------------------------------

  /** A run: the states after boot and after each handler. */
  ghost predicate IsRun(c: Config, rs: seq<Recorder>, evs: seq<Event>) {
    && |rs| == |evs| + 1
    && rs[0] == Boot(rs[0].inbox)
    && forall i :: 0 <= i < |evs| ==>
         Admissible(c, rs[i], evs[i]) && EventFits(c, evs[i]) && rs[i + 1] == Next(c, rs[i], evs[i])
  }

  lemma {:induction false} RunSound(c: Config, rs: seq<Recorder>, evs: seq<Event>, i: nat)
    requires IsRun(c, rs, evs) && i < |rs|
    ensures Inv(c, rs[i]) && Settled(c, rs[i])
  {
    if i == 0 {
      BootSound(c, rs[0].inbox);
    } else {
      RunSound(c, rs, evs, i - 1);
      assert rs[i - 1 + 1] == Next(c, rs[i - 1], evs[i - 1]);
      NextKeeps(c, rs[i - 1], evs[i - 1]);
    }
  }
}
