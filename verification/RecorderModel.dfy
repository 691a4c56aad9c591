/** The recorder as a state machine on values: START, STOP, DISCARD and TICK, one at a time.

    The state is the service's own fields plus `books`, a ledger of what happened since it booted.
    The class in RecorderService is proved to do exactly these steps; RecorderRuns proves what
    every run of them keeps. */
module RecorderModel {
  import opened Basics
  import opened Grid
  import opened CaptureEngine
  import opened Finalize

  const MAX_FRAMES := 1800
  const CLOCK_TIMEOUT_S := 1.0

  const CONTROL := "recorder/control"
  const CTL_START := 1
  const CTL_STOP := 2
  const CTL_DISCARD := 3

  datatype Mode = Idle | Recording

  /** A finalize job still encoding: what the worker was handed. */
  datatype Job = Job(id: string, context: string, rows: seq<Row>, recHz: real, verdict: Option<Request>)

  /** What the telemetry cell says: state (1 while recording), rows so far, identity. */
  datatype Content = Content(state: nat, frames: nat, id: string)

  /** One ring of recorder/episode: an episode aborted, or a collected job with its outcome. */
  datatype Report = Lost(id: string) | Done(job: Job, outcome: Outcome)

  datatype Submission = Submission(job: Job, e: Episode)

  datatype Books = Books(
    started: seq<string>,
    discarded: seq<string>,
    reports: seq<Report>,
    submitted: seq<Submission>,
    sent: seq<Request>,
    cells: seq<Cell<Content>>)

  datatype Recorder = Recorder(
    mode: Mode,
    id: string,
    context: string,
    recHz: real,
    clockSeen: real,
    e: Episode,
    teleFid: nat,
    teleLast: Option<Content>,
    pending: seq<Job>,
    inbox: seq<Request>,
    parked: seq<Request>,
    rung: seq<nat>,
    books: Books)

  /** Boot: idle, with whatever verdicts the inbox directory already holds. */
  function Boot(inbox: seq<Request>): Recorder {
    Recorder(Idle, "", "", 0.0, 0.0, Fresh(0, 0), 0, None, [], inbox, [], [], Books([], [], [], [], inbox, []))
  }

  /** What one pass reads: per other source its buffered samples, the clock's buffered frames, the monotonic time. */
  datatype Poll = Poll(answers: seq<seq<Sample>>, frames: seq<Sample>, now: real)

  /** What a control event reads from the outside. */
  datatype Env = Env(poll: Poll, wallNs: int, now: real, context: string, requestedHz: Option<real>, newId: string)

  datatype JobStatus = Running | Finished(written: bool)

  datatype Event =
    | Control(channel: string, code: nat, env: Env)
    | Tick(poll: Poll, jobs: seq<JobStatus>, now: real)
    | Submit(verdict: Request)

  // ----- Pieces -------------------------------------------------------------------------------

  function Reset(r: Recorder): Recorder {
    r.(id := "", context := "", recHz := 0.0, clockSeen := 0.0, e := Fresh(0, 0))
  }

  function ContentOf(r: Recorder): Content {
    Content(if r.mode.Recording? then 1 else 0, |r.e.rows|, r.id)
  }

  /** Publish on change only, with the next frame id. */
  function Telemetry(r: Recorder): Recorder {
    var now := ContentOf(r);
    if r.teleLast == Some(now) then r
    else r.(teleLast := Some(now), teleFid := r.teleFid + 1,
            books := r.books.(cells := r.books.cells + [Cell(r.teleFid + 1, now)]))
  }

  predicate Names(req: Request, id: string) {
    id != "" && req.captureId == Some(id)
  }

  /** Request k is the first with this capture identity. */
  ghost predicate FirstWith(reqs: seq<Request>, id: string, k: int) {
    && 0 <= k < |reqs| && reqs[k].captureId == Some(id)
    && forall j :: 0 <= j < k ==> reqs[j].captureId != Some(id)
  }

  /** What draining these requests for a capture comes to: the first with its identity is taken and all others are
      parked, in order; with none, or without a capture, all are. */
  ghost predicate Verdicted(reqs: seq<Request>, id: string, verdict: Option<Request>, parked: seq<Request>) {
    match verdict
    case Some(v) =>
      id != "" && exists k :: FirstWith(reqs, id, k) && v == reqs[k] && parked == reqs[..k] + reqs[k + 1..]
    case None =>
      (id == "" || forall j :: 0 <= j < |reqs| ==> reqs[j].captureId != Some(id)) && parked == reqs
  }

  /** The position of the first request naming `id`, or the length if none does. */
  function FirstNaming(reqs: seq<Request>, id: string): (k: nat)
    ensures k <= |reqs| && forall i :: 0 <= i < k ==> !Names(reqs[i], id)
    ensures k < |reqs| ==> Names(reqs[k], id)
  {
    if reqs == [] then 0
    else if Names(reqs[0], id) then 0
    else 1 + FirstNaming(reqs[1..], id)
  }

  function Chosen(reqs: seq<Request>, id: string): Option<Request> {
    var k := FirstNaming(reqs, id);
    if k < |reqs| then Some(reqs[k]) else None
  }

  function Unchosen(reqs: seq<Request>, id: string): seq<Request> {
    var k := FirstNaming(reqs, id);
    if k < |reqs| then reqs[..k] + reqs[k + 1..] else reqs
  }

  lemma DrainExact(reqs: seq<Request>, id: string)
    ensures Verdicted(reqs, id, Chosen(reqs, id), Unchosen(reqs, id))
  {
    var k := FirstNaming(reqs, id);
    if k < |reqs| {
      assert FirstWith(reqs, id, k);
    }
  }

  /** The whole inbox is consumed; everything but the chosen request is quarantined. */
  function DrainVerdicts(r: Recorder, id: string): Recorder {
    r.(inbox := [], parked := r.parked + Unchosen(r.inbox, id))
  }

  function Abort(r: Recorder): Recorder {
    var quiet := Telemetry(Reset(DrainVerdicts(r, "")).(mode := Idle));
    quiet.(rung := quiet.rung + [EP_FAILED], books := quiet.books.(reports := quiet.books.reports + [Lost(r.id)]))
  }

  /** What the worker is handed. */
  function JobOf(r: Recorder): Job {
    Job(r.id, r.context, r.e.rows, r.recHz, Chosen(r.inbox, r.id))
  }

  function SubmitFinalize(r: Recorder): Recorder {
    var job := JobOf(r);
    var handed := DrainVerdicts(r, r.id).(
      pending := r.pending + [job],
      books := r.books.(submitted := r.books.submitted + [Submission(job, r.e)]));
    Telemetry(Reset(handed).(mode := Idle))
  }

  predicate PollFits(c: Config, p: Poll) {
    |p.answers| == |c.others|
  }

  function CapturePass(c: Config, r: Recorder, p: Poll): Recorder
    requires PollFits(c, p)
  {
    match Capture(c, r.e, p.answers, p.frames)
    case Going(e) => r.(e := e, clockSeen := if p.frames != [] then p.now else r.clockSeen)
    case Aborted(_) => Abort(r)
  }

  function StatusOf(jobs: seq<JobStatus>, i: nat): JobStatus {
    if i < |jobs| then jobs[i] else Running
  }

  function Still(pending: seq<Job>, jobs: seq<JobStatus>): seq<Job> {
    if pending == [] then [] else
      Still(Init(pending), jobs) + if StatusOf(jobs, |pending| - 1).Running? then [Last(pending)] else []
  }

  function OutcomeOf(job: Job, written: bool): Outcome {
    Finish(job.context, job.rows, job.recHz, job.id, job.verdict, written)
  }

  function Collected(pending: seq<Job>, jobs: seq<JobStatus>): seq<Report> {
    if pending == [] then [] else
      Collected(Init(pending), jobs) +
      match StatusOf(jobs, |pending| - 1)
      case Running => []
      case Finished(written) => [Done(Last(pending), OutcomeOf(Last(pending), written))]
  }

  function RingOf(report: Report): nat {
    match report
    case Lost(_) => EP_FAILED
    case Done(_, outcome) => Code(outcome)
  }

  function Rings(reports: seq<Report>): seq<nat> {
    seq(|reports|, i requires 0 <= i < |reports| => RingOf(reports[i]))
  }

  function Collect(r: Recorder, jobs: seq<JobStatus>): Recorder {
    var done := Collected(r.pending, jobs);
    r.(pending := Still(r.pending, jobs), rung := r.rung + Rings(done),
       books := r.books.(reports := r.books.reports + done))
  }

  // ----- Handlers -----------------------------------------------------------------------------

  function Start(c: Config, r: Recorder, env: Env): Recorder {
    var hz := RecordHz(env.requestedHz, c.clock.rateHz);
    Telemetry(Reset(r).(
      mode := Recording, id := env.newId, context := env.context, recHz := hz, clockSeen := env.now,
      e := Fresh(PeriodNs(hz), env.wallNs),
      books := r.books.(started := r.books.started + [env.newId])))
  }

  function Discard(r: Recorder): Recorder {
    var out := Reset(DrainVerdicts(r, "")).(
      mode := Idle, books := r.books.(discarded := r.books.discarded + [r.id]));
    Telemetry(out)
  }

  function Stop(c: Config, r: Recorder, p: Poll): Recorder
    requires PollFits(c, p)
  {
    var tail := CapturePass(c, r, p);
    if tail.mode.Recording? then SubmitFinalize(tail) else tail
  }

  function OnEvent(c: Config, r: Recorder, channel: string, code: nat, env: Env): Recorder
    requires PollFits(c, env.poll)
  {
    if channel != CONTROL then r
    else if code == CTL_START then if r.mode.Idle? then Start(c, r, env) else r
    else if code == CTL_DISCARD && r.mode.Recording? then Discard(r)
    else if code == CTL_STOP && r.mode.Recording? then Stop(c, r, env.poll)
    else r
  }

  /** The end of a tick that is still recording. */
  function Limits(r: Recorder, now: real): Recorder {
    var told := Telemetry(r);
    if now - told.clockSeen > CLOCK_TIMEOUT_S then Abort(told)
    else if |told.e.rows| >= MAX_FRAMES then SubmitFinalize(told)
    else told
  }

  function OnTick(c: Config, r: Recorder, p: Poll, jobs: seq<JobStatus>, now: real): Recorder
    requires PollFits(c, p)
  {
    var collected := Collect(r, jobs);
    if collected.mode.Idle? then collected
    else
      var passed := CapturePass(c, collected, p);
      if passed.mode.Idle? then passed else Limits(passed, now)
  }

  /** Another process drops a verdict into the inbox. */
  function Arrival(r: Recorder, v: Request): Recorder {
    r.(inbox := r.inbox + [v], books := r.books.(sent := r.books.sent + [v]))
  }

  predicate EventFits(c: Config, ev: Event) {
    match ev
    case Control(_, _, env) => PollFits(c, env.poll)
    case Tick(p, _, _) => PollFits(c, p)
    case Submit(_) => true
  }

  function Next(c: Config, r: Recorder, ev: Event): Recorder
    requires EventFits(c, ev)
  {
    match ev
    case Control(channel, code, env) => OnEvent(c, r, channel, code, env)
    case Tick(p, jobs, now) => OnTick(c, r, p, jobs, now)
    case Submit(v) => Arrival(r, v)
  }
}
