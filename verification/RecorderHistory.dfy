/** What an episode owes to the run it was recorded in: the START that opened it, the polls since, and the
    event that ended it. */
module RecorderHistory {
  import opened Basics
  import opened Grid
  import opened CaptureEngine
  import opened Finalize
  import opened Newest
  import opened Schedule
  import opened RecorderModel
  import opened RecorderRuns

  // ----- An episode as a replay of polls ------------------------------------------------------

  predicate AllFit(c: Config, polls: seq<Poll>) {
    forall p :: p in polls ==> PollFits(c, p)
  }

  /** Capture passes over a list of polls, up to the first that aborts. */
  function Replay(c: Config, start: Episode, polls: seq<Poll>): Pumped
    requires AllFit(c, polls)
  {
    if polls == [] then Going(start) else
      assert AllFit(c, Init(polls)) && PollFits(c, Last(polls));
      match Replay(c, start, Init(polls))
      case Aborted(why) => Aborted(why)
      case Going(e) =>
        Capture(c, e, Last(polls).answers, Last(polls).frames)
  }

  /** The clock frames of the polls, in order. */
  function ClockOf(polls: seq<Poll>): seq<Sample> {
    if polls == [] then [] else ClockOf(Init(polls)) + Last(polls).frames
  }

  /** When the clock was last heard: at the latest poll that had frames, or at START. */
  function HeardAt(polls: seq<Poll>, start: real): real {
    if polls == [] then start
    else if Last(polls).frames != [] then Last(polls).now
    else HeardAt(Init(polls), start)
  }

  /** Some poll handed this sample to its topic's source. */
  ghost predicate Arrived(c: Config, polls: seq<Poll>, t: Topic, x: Sample) {
    exists p, i :: p in polls && 0 <= i < |c.others| && i < |p.answers| && c.others[i].topic == t && x in p.answers[i]
  }

  lemma {:induction false} RefreshArrivals(others: seq<Source>, e: Episode, answers: seq<seq<Sample>>)
    requires |answers| == |others|
    ensures forall t, x :: (t, x) in RefreshAll(others, e, answers).log.delivered ==>
              (t, x) in e.log.delivered || exists i :: 0 <= i < |others| && others[i].topic == t && x in answers[i]
  {
    if others != [] {
      var before := RefreshAll(Init(others), e, Init(answers));
      RefreshArrivals(Init(others), e, Init(answers));
      forall t, x | (t, x) in RefreshAll(others, e, answers).log.delivered && (t, x) !in e.log.delivered
        ensures exists i :: 0 <= i < |others| && others[i].topic == t && x in answers[i]
      {
        if (t, x) in before.log.delivered {
          var i :| 0 <= i < |Init(others)| && Init(others)[i].topic == t && x in Init(answers)[i];
          assert others[i].topic == t && x in answers[i];
        } else {
          assert others[|others| - 1].topic == t && x in answers[|others| - 1];
        }
      }
    }
  }

  /** One pass adds to the ledger what its poll handed over, and nothing else. */
  lemma CaptureLedger(c: Config, e: Episode, p: Poll)
    requires PollFits(c, p) && Sound(c, e) && Capture(c, e, p.answers, p.frames).Going?
    ensures var e' := Capture(c, e, p.answers, p.frames).e;
            && Sound(c, e') && e'.period == e.period && e'.t0 == e.t0
            && e'.log.drained == e.log.drained + p.frames
            && |e'.deferred| <= CLOCK_BUFFER && e.rows <= e'.rows
            && forall t, x :: (t, x) in e'.log.delivered ==> (t, x) in e.log.delivered || Arrived(c, [p], t, x)
  {
    hide Sound, FateOf, Consume, Arrived;
    CaptureSound(c, e, p.answers, p.frames);
    RefreshAllSound(c, c.others, e, p.answers);
    RefreshArrivals(c.others, e, p.answers);
    var refreshed := RefreshAll(c.others, e, p.answers);
    PumpShape(c, Enqueue(refreshed, p.frames));
    forall t, x | (t, x) in refreshed.log.delivered && (t, x) !in e.log.delivered
      ensures Arrived(c, [p], t, x)
    {
      var i :| 0 <= i < |c.others| && c.others[i].topic == t && x in p.answers[i];
      ArrivedIn(c, [p], p, i, x);
    }
  }

  lemma ArrivedIn(c: Config, polls: seq<Poll>, p: Poll, i: nat, x: Sample)
    requires p in polls && i < |c.others| && i < |p.answers| && x in p.answers[i]
    ensures Arrived(c, polls, c.others[i].topic, x)
  {
  }

  lemma ArrivedMore(c: Config, polls: seq<Poll>, more: seq<Poll>, t: Topic, x: Sample)
    requires Arrived(c, polls, t, x) && forall p :: p in polls ==> p in more
    ensures Arrived(c, more, t, x)
  {
  }

  /** A replay is a sound episode of its own grid and fence, whose ledger holds exactly the polls' clock frames,
      in order, and only samples some poll handed over. */
  lemma {:induction false} ReplaySound(c: Config, period: nat, t0: int, polls: seq<Poll>)
    requires AllFit(c, polls)
    requires Replay(c, Fresh(period, t0), polls).Going?
    ensures var e := Replay(c, Fresh(period, t0), polls).e;
            && Sound(c, e) && e.period == period && e.t0 == t0
            && e.log.drained == ClockOf(polls)
            && |e.deferred| <= CLOCK_BUFFER
            && forall t, x :: (t, x) in e.log.delivered ==> Arrived(c, polls, t, x)
  {
    hide Sound, Arrived, Capture;
    if polls == [] {
      FreshSound(c, period, t0);
    } else {
      ReplaySound(c, period, t0, Init(polls));
      var before := Replay(c, Fresh(period, t0), Init(polls)).e;
      CaptureLedger(c, before, Last(polls));
      var e := Replay(c, Fresh(period, t0), polls).e;
      forall t, x | (t, x) in e.log.delivered
        ensures Arrived(c, polls, t, x)
      {
        if (t, x) in before.log.delivered {
          ArrivedMore(c, Init(polls), polls, t, x);
        } else {
          ArrivedMore(c, [Last(polls)], polls, t, x);
        }
      }
    }
  }

  // ----- The newest sample --------------------------------------------------------------------

  /** The newest that any of these polls offered a source for a clock frame's id. */
  function NewestOf(c: Config, polls: seq<Poll>, s: Source, fid: nat): Option<Sample>
    requires AllFit(c, polls)
  {
    if polls == [] then None
    else
      assert AllFit(c, Init(polls)) && PollFits(c, Last(polls));
      var now := NewestIn(c.others, Last(polls).answers, s, fid);
      if now.Some? then now else NewestOf(c, Init(polls), s, fid)
  }

  lemma CaptureHolds(c: Config, e: Episode, p: Poll, s: Source, fid: nat)
    requires PollFits(c, p) && Capture(c, e, p.answers, p.frames).Going?
    ensures Newer(s.paired, Held(e, s, fid), NewestIn(c.others, p.answers, s, fid),
                  Held(Capture(c, e, p.answers, p.frames).e, s, fid))
  {
    hide Pump, RefreshAll, NewestIn;
    RefreshNewest(c.others, e, p.answers, s, fid);
    PumpShape(c, Enqueue(RefreshAll(c.others, e, p.answers), p.frames));
  }

  /** After any polls since START a window source holds its newest sample, and none exactly if there was none; an
      answer that a paired source holds is the newest to its id. */
  lemma {:induction false} ReplayHolds(c: Config, period: nat, t0: int, polls: seq<Poll>, s: Source, fid: nat)
    requires AllFit(c, polls) && Replay(c, Fresh(period, t0), polls).Going?
    ensures var held := Held(Replay(c, Fresh(period, t0), polls).e, s, fid);
            !s.paired || held.Some? ==> held == NewestOf(c, polls, s, fid)
  {
    hide Capture, NewestIn;
    if polls != [] {
      ReplayHolds(c, period, t0, Init(polls), s, fid);
      CaptureHolds(c, Replay(c, Fresh(period, t0), Init(polls)).e, Last(polls), s, fid);
    }
  }

  /** Every feature that a source claims is the newest these polls offered it for frame f. */
  ghost predicate FilledNewest(c: Config, polls: seq<Poll>, row: Row, f: Sample)
    requires AllFit(c, polls)
  {
    forall k :: k in row.data && Claimant(c.others, k).Some? ==>
      NewestOf(c, polls, Claimant(c.others, k).value, f.fid) == Some(row.data[k])
  }

  /** Row i was recorded by the poll after the first n. */
  ghost predicate RecordedAt(c: Config, start: Episode, polls: seq<Poll>, i: nat, n: nat) {
    && n < |polls| && AllFit(c, polls[..n]) && AllFit(c, polls[..n + 1])
    && var before, after := Replay(c, start, polls[..n]), Replay(c, start, polls[..n + 1]);
       before.Going? && after.Going? && |before.e.rows| <= i < |after.e.rows|
  }

  lemma CaptureFills(c: Config, e: Episode, p: Poll)
    requires PollFits(c, p) && Sound(c, e) && Capture(c, e, p.answers, p.frames).Going?
    ensures var e' := Capture(c, e, p.answers, p.frames).e; AddsFilled(c, e', e, e')
  {
    hide Sound, Pump, RefreshAll, FilledFrom;
    RefreshAllSound(c, c.others, e, p.answers);
    var full := Enqueue(RefreshAll(c.others, e, p.answers), p.frames);
    RecordedRows(c, e);
    PumpFills(c, full);
    PumpShape(c, full);
    var e' := Pump(c, full).e;
    forall i | |e.rows| <= i < |e'.rows|
      ensures FilledFrom(c, e', e'.rows[i], Of(e'.log.consumed, Recorded)[i])
    {
      FilledSame(c, e', full, e'.rows[i], Of(e'.log.consumed, Recorded)[i]);
    }
  }

  lemma RecordedRows(c: Config, e: Episode)
    requires Sound(c, e)
    ensures |e.rows| == |Of(e.log.consumed, Recorded)|
  {
  }

  lemma FilledByNewest(c: Config, period: nat, t0: int, polls: seq<Poll>, row: Row, f: Sample)
    requires AllFit(c, polls) && Replay(c, Fresh(period, t0), polls).Going?
    requires FilledFrom(c, Replay(c, Fresh(period, t0), polls).e, row, f)
    ensures FilledNewest(c, polls, row, f)
  {
    hide Replay, Held, NewestOf, Claimant;
    forall k | k in row.data && Claimant(c.others, k).Some?
      ensures NewestOf(c, polls, Claimant(c.others, k).value, f.fid) == Some(row.data[k])
    {
      ReplayHolds(c, period, t0, polls, Claimant(c.others, k).value, f.fid);
    }
  }

  /** Each row is filled with the newest samples at the poll that recorded it. */
  lemma {:induction false} RowIsNewest(c: Config, period: nat, t0: int, polls: seq<Poll>, i: nat) returns (n: nat)
    requires AllFit(c, polls) && Replay(c, Fresh(period, t0), polls).Going?
    requires i < |Replay(c, Fresh(period, t0), polls).e.rows|
    ensures RecordedAt(c, Fresh(period, t0), polls, i, n)
    ensures var e := Replay(c, Fresh(period, t0), polls).e; var frames := Of(e.log.consumed, Recorded);
            i < |frames| && FilledNewest(c, polls[..n + 1], e.rows[i], frames[i])
  {
    hide Capture, Sound, NewestOf, FilledFrom, FilledNewest, Of;
    var front := Init(polls);
    var before := Replay(c, Fresh(period, t0), front).e;
    ReplaySound(c, period, t0, front);
    CaptureFills(c, before, Last(polls));
    RecordedRows(c, before);
    assert polls == polls[..|polls|] && front == polls[..|polls| - 1];
    if i < |before.rows| {
      n := RowIsNewest(c, period, t0, front, i);
      assert polls[..n] == front[..n] && polls[..n + 1] == front[..n + 1];
    } else {
      n := |polls| - 1;
      var e := Replay(c, Fresh(period, t0), polls).e;
      FilledByNewest(c, period, t0, polls, e.rows[i], Of(e.log.consumed, Recorded)[i]);
    }
  }

  // ----- Since START --------------------------------------------------------------------------

  /** What an event polls while the recorder records. */
  function PollsOf(evs: seq<Event>): seq<Poll> {
    if evs == [] then [] else
      PollsOf(Init(evs)) +
      match Last(evs)
      case Tick(p, _, _) => [p]
      case Control(_, _, env) => if IsStop(Last(evs)) then [env.poll] else []
      case Submit(_) => []
  }

  predicate IsStart(ev: Event) {
    ev.Control? && ev.channel == "recorder/control" && ev.code == 1
  }

  predicate IsStop(ev: Event) {
    ev.Control? && ev.channel == "recorder/control" && ev.code == 2
  }

  /** Event k is an accepted START, and the recorder has been recording ever since, up to state i. */
  ghost predicate Since(rs: seq<Recorder>, evs: seq<Event>, k: nat, i: nat) {
    && k < i < |rs| == |evs| + 1
    && rs[k].mode.Idle? && IsStart(evs[k])
    && forall j :: k < j <= i ==> rs[j].mode.Recording?
  }

  /** The recorder is what START and the polls since make of it. */
  ghost predicate Replayed(c: Config, r: Recorder, env: Env, polls: seq<Poll>) {
    && r.mode.Recording?
    && AllFit(c, polls)
    && r.id == env.newId && r.context == env.context
    && r.recHz == RecordHz(env.requestedHz, c.clock.rateHz)
    && r.clockSeen == HeardAt(polls, env.now)
    && Replay(c, Fresh(PeriodNs(r.recHz), env.wallNs), polls) == Going(r.e)
  }

  lemma PollsOfOne(evs: seq<Event>, ev: Event)
    ensures PollsOf(evs + [ev]) == PollsOf(evs) + PollsOf([ev])
  {
    SnocParts(evs, ev);
    SnocParts([], ev);
    assert [] + [ev] == [ev];
    assert PollsOf([]) + PollsOf([ev]) == PollsOf([ev]);
  }

  /** A START that the idle recorder accepts begins an empty replay. */
  lemma Begun(c: Config, r: Recorder, ev: Event)
    requires EventFits(c, ev) && r.mode.Idle? && Next(c, r, ev).mode.Recording?
    ensures IsStart(ev) && Replayed(c, Next(c, r, ev), ev.env, [])
  {
  }

  lemma PassContinues(c: Config, r: Recorder, p: Poll)
    requires PollFits(c, p) && CapturePass(c, r, p).mode.Recording?
    ensures Capture(c, r.e, p.answers, p.frames) == Going(CapturePass(c, r, p).e)
    ensures CapturePass(c, r, p) ==
            r.(e := CapturePass(c, r, p).e, clockSeen := if p.frames != [] then p.now else r.clockSeen)
  {
    hide Capture;
  }

  lemma LimitsContinue(r: Recorder, now: real)
    requires Limits(r, now).mode.Recording?
    ensures Limits(r, now) == Telemetry(r)
  {
  }

  /** A tick that stays in recording is one capture pass; it keeps what START fixed. */
  lemma TickContinues(c: Config, r: Recorder, p: Poll, jobs: seq<JobStatus>, now: real)
    requires PollFits(c, p) && r.mode.Recording? && OnTick(c, r, p, jobs, now).mode.Recording?
    ensures var r' := OnTick(c, r, p, jobs, now);
            && r'.id == r.id && r'.context == r.context && r'.recHz == r.recHz
            && r'.clockSeen == (if p.frames != [] then p.now else r.clockSeen)
            && Capture(c, r.e, p.answers, p.frames) == Going(r'.e)
  {
    hide CapturePass, Limits, Capture;
    var collected := Collect(r, jobs);
    PassContinues(c, collected, p);
    LimitsContinue(CapturePass(c, collected, p), now);
  }

  /** Any other event does not touch a recording that it does not end. */
  lemma OtherContinues(c: Config, r: Recorder, ev: Event)
    requires EventFits(c, ev) && !ev.Tick? && r.mode.Recording? && Next(c, r, ev).mode.Recording?
    ensures PollsOf([ev]) == []
    ensures var r' := Next(c, r, ev);
            && r'.id == r.id && r'.context == r.context && r'.recHz == r.recHz
            && r'.clockSeen == r.clockSeen && r'.e == r.e
  {
    hide Capture;
    assert Last([ev]) == ev && Init([ev]) == [];
  }

  lemma ReplaySnoc(c: Config, start: Episode, polls: seq<Poll>, p: Poll)
    requires AllFit(c, polls) && PollFits(c, p) && Replay(c, start, polls).Going?
    ensures AllFit(c, polls + [p])
    ensures Replay(c, start, polls + [p]) == Capture(c, Replay(c, start, polls).e, p.answers, p.frames)
    ensures forall t :: HeardAt(polls + [p], t) == if p.frames != [] then p.now else HeardAt(polls, t)
  {
    hide Capture;
    SnocParts(polls, p);
  }

  /** An event in mid-recording adds its poll, if it has one, to the replay. */
  lemma Continued(c: Config, r: Recorder, ev: Event, env: Env, polls: seq<Poll>)
    requires EventFits(c, ev) && Replayed(c, r, env, polls) && Next(c, r, ev).mode.Recording?
    ensures Replayed(c, Next(c, r, ev), env, polls + PollsOf([ev]))
  {
    hide Capture, Replay, OnTick, OnEvent, Arrival, HeardAt;
    if ev.Tick? {
      TickContinues(c, r, ev.poll, ev.jobs, ev.now);
      assert PollsOf([ev]) == [ev.poll] by { assert Last([ev]) == ev && Init([ev]) == []; }
      ReplaySnoc(c, Fresh(PeriodNs(r.recHz), env.wallNs), polls, ev.poll);
    } else {
      OtherContinues(c, r, ev);
      assert polls + [] == polls;
    }
  }

  lemma {:induction false} RecordingSince(c: Config, rs: seq<Recorder>, evs: seq<Event>, i: nat) returns (k: nat)
    requires IsRun(c, rs, evs) && i < |rs| && rs[i].mode.Recording?
    ensures Since(rs, evs, k, i) && Replayed(c, rs[i], evs[k].env, PollsOf(evs[k + 1..i]))
  {
    hide Next, Replayed, Admissible;
    assert i > 0;
    assert rs[i - 1 + 1] == Next(c, rs[i - 1], evs[i - 1]);
    if rs[i - 1].mode.Idle? {
      k := i - 1;
      Begun(c, rs[k], evs[k]);
      assert evs[k + 1..i] == [];
    } else {
      k := RecordingSince(c, rs, evs, i - 1);
      Continued(c, rs[i - 1], evs[i - 1], evs[k].env, PollsOf(evs[k + 1..i - 1]));
      PollsOfOne(evs[k + 1..i - 1], evs[i - 1]);
      assert evs[k + 1..i] == evs[k + 1..i - 1] + [evs[i - 1]];
    }
  }

  // ----- How a recording ends -----------------------------------------------------------------

  datatype Ending = Continues | HandedOver(e: Episode) | LostNow(why: Reason) | DroppedByUser

  function StopEnding(p: Pumped): Ending {
    match p
    case Aborted(why) => LostNow(why)
    case Going(e) => HandedOver(e)
  }

  /** What an event does to the recording it finds. A pass that aborts loses it. Otherwise STOP hands it over;
      a tick loses it if the clock was last heard too long ago, and only then hands over one that reached the cap. */
  function EndingOf(c: Config, r: Recorder, ev: Event): Ending
    requires EventFits(c, ev)
  {
    match ev
    case Submit(_) => Continues
    case Control(channel, code, env) =>
      if channel != "recorder/control" then Continues
      else if code == 3 then DroppedByUser
      else if code != 2 then Continues
      else StopEnding(Capture(c, r.e, env.poll.answers, env.poll.frames))
    case Tick(p, _, now) =>
      match Capture(c, r.e, p.answers, p.frames)
      case Aborted(why) => LostNow(why)
      case Going(e) =>
        if now - HeardAt([p], r.clockSeen) > 1.0 then LostNow(ClockSilent)
        else if |e.rows| >= 1800 then HandedOver(e)
        else Continues
  }

  /** The books tell an ending: one more submission, one more loss or one more discard, and idle from then on. */
  ghost predicate Told(r: Recorder, ending: Ending, r': Recorder) {
    && (r'.mode.Recording? <==> ending.Continues?)
    && r'.books.submitted == r.books.submitted +
         (if ending.HandedOver? then [Submission(JobOf(r.(e := ending.e)), ending.e)] else [])
    && LostIds(r'.books.reports) == LostIds(r.books.reports) + (if ending.LostNow? then [r.id] else [])
    && r'.books.discarded == r.books.discarded + (if ending.DroppedByUser? then [r.id] else [])
    && r'.books.started == r.books.started
  }

  lemma PassTold(c: Config, r: Recorder, p: Poll)
    requires PollFits(c, p) && r.mode.Recording?
    ensures var passed := CapturePass(c, r, p);
            match Capture(c, r.e, p.answers, p.frames)
            case Aborted(why) => Told(r, LostNow(why), passed)
            case Going(e) => passed == r.(e := e, clockSeen := HeardAt([p], r.clockSeen))
  {
    hide Capture, Abort;
    assert Last([p]) == p && Init([p]) == [];
    if Capture(c, r.e, p.answers, p.frames).Aborted? {
      AbortTold(r, Capture(c, r.e, p.answers, p.frames).why);
    }
  }

  lemma AbortTold(r: Recorder, why: Reason)
    ensures Told(r, LostNow(why), Abort(r))
  {
    SnocReports(r.books.reports, Lost(r.id));
  }

  lemma SubmitTold(r: Recorder)
    ensures Told(r, HandedOver(r.e), SubmitFinalize(r))
  {
  }

  lemma LimitsTold(r: Recorder, now: real)
    requires r.mode.Recording?
    ensures Told(r, if now - r.clockSeen > 1.0 then LostNow(ClockSilent)
                    else if |r.e.rows| >= 1800 then HandedOver(r.e) else Continues, Limits(r, now))
  {
    hide Abort, SubmitFinalize, LostIds;
    var told := Telemetry(r);
    AbortTold(told, ClockSilent);
    SubmitTold(told);
  }

  lemma CollectTold(r: Recorder, jobs: seq<JobStatus>)
    ensures r.mode.Recording? ==> Told(r, Continues, Collect(r, jobs))
    ensures LostIds(Collect(r, jobs).books.reports) == LostIds(r.books.reports)
  {
    CollectedParts(r.pending, jobs);
    ConcatReports(r.books.reports, Collected(r.pending, jobs));
  }

  lemma TickTold(c: Config, r: Recorder, p: Poll, jobs: seq<JobStatus>, now: real)
    requires PollFits(c, p) && r.mode.Recording?
    ensures Told(r, EndingOf(c, r, Tick(p, jobs, now)), OnTick(c, r, p, jobs, now))
  {
    hide CapturePass, Limits, Capture, LostIds, HeardAt;
    CollectTold(r, jobs);
    var collected := Collect(r, jobs);
    PassTold(c, collected, p);
    if Capture(c, r.e, p.answers, p.frames).Going? {
      LimitsTold(CapturePass(c, collected, p), now);
    }
  }

  lemma StopTold(c: Config, r: Recorder, p: Poll)
    requires PollFits(c, p) && r.mode.Recording?
    ensures Told(r, StopEnding(Capture(c, r.e, p.answers, p.frames)), Stop(c, r, p))
  {
    hide CapturePass, Capture, LostIds;
    PassTold(c, r, p);
  }

  lemma EndingTold(c: Config, r: Recorder, ev: Event)
    requires EventFits(c, ev) && r.mode.Recording?
    ensures Told(r, EndingOf(c, r, ev), Next(c, r, ev))
  {
    hide OnTick, Stop, Capture, LostIds, HeardAt;
    match ev
    case Tick(p, jobs, now) => TickTold(c, r, p, jobs, now);
    case Control(channel, code, env) =>
      if channel == CONTROL && code == CTL_STOP {
        StopTold(c, r, env.poll);
      }
    case Submit(_) =>
  }

  lemma IdleTold(c: Config, r: Recorder, ev: Event)
    requires EventFits(c, ev) && r.mode.Idle?
    ensures var r' := Next(c, r, ev);
            && (r'.mode.Recording? <==> IsStart(ev))
            && r'.books.submitted == r.books.submitted && r'.books.discarded == r.books.discarded
            && LostIds(r'.books.reports) == LostIds(r.books.reports)
            && r'.books.started == r.books.started + (if IsStart(ev) then [ev.env.newId] else [])
            && (IsStart(ev) ==> Replayed(c, r', ev.env, []))
  {
    hide LostIds, Capture;
    if ev.Tick? {
      CollectTold(r, ev.jobs);
    }
  }

  // ----- Reports and pending jobs -------------------------------------------------------------

  /** What an event adds to the reports and the pending jobs. A tick first reports its finished jobs; then one that ends
      the recording reports a loss or queues the job it hands over. */
  ghost predicate ReportsMoved(c: Config, r: Recorder, ev: Event, r': Recorder)
    requires EventFits(c, ev)
  {
    var jobs := if ev.Tick? then ev.jobs else [];
    var ending := if r.mode.Idle? then Continues else EndingOf(c, r, ev);
    && r'.books.reports ==
       r.books.reports + Collected(r.pending, jobs) + (if ending.LostNow? then [Lost(r.id)] else [])
    && r'.pending == Still(r.pending, jobs) + (if ending.HandedOver? then [JobOf(r.(e := ending.e))] else [])
  }

  lemma {:induction false} NoneCollected(pending: seq<Job>)
    ensures Collected(pending, []) == [] && Still(pending, []) == pending
  {
    hide OutcomeOf;
    if pending != [] {
      NoneCollected(Init(pending));
      Unsnoc(pending);
    }
  }

  lemma EndsReport(r: Recorder)
    ensures Abort(r).books.reports == r.books.reports + [Lost(r.id)] && Abort(r).pending == r.pending
    ensures var r' := SubmitFinalize(r); r'.books.reports == r.books.reports && r'.pending == r.pending + [JobOf(r)]
  {
  }

  lemma TickReports(c: Config, r: Recorder, p: Poll, jobs: seq<JobStatus>, now: real)
    requires PollFits(c, p)
    ensures ReportsMoved(c, r, Tick(p, jobs, now), OnTick(c, r, p, jobs, now))
  {
    hide Capture, Abort, SubmitFinalize, HeardAt, Chosen, Collected, Still, Rings;
    var collected := Collect(r, jobs);
    PassMoves(c, collected, p);
    var passed := CapturePass(c, collected, p);
    EndsReport(collected);
    EndsReport(Telemetry(passed));
    assert collected.books.reports + [] == collected.books.reports && collected.pending + [] == collected.pending;
  }

  /** Nothing else is reported, queued or collected. */
  lemma ReportsTold(c: Config, r: Recorder, ev: Event)
    requires EventFits(c, ev)
    ensures ReportsMoved(c, r, ev, Next(c, r, ev))
  {
    hide OnTick, CapturePass, Capture, Abort, SubmitFinalize, HeardAt, Chosen, Collected, Still;
    NoneCollected(r.pending);
    assert r.books.reports + [] == r.books.reports && r.pending + [] == r.pending;
    match ev
    case Submit(_) =>
    case Tick(p, jobs, now) => TickReports(c, r, p, jobs, now);
    case Control(channel, code, env) =>
      StopReports(c, r, env.poll);
  }

  lemma StopReports(c: Config, r: Recorder, p: Poll)
    requires PollFits(c, p)
    ensures var r' := Stop(c, r, p);
            r.mode.Recording? ==>
              match Capture(c, r.e, p.answers, p.frames)
              case Aborted(_) => r'.books.reports == r.books.reports + [Lost(r.id)] && r'.pending == r.pending
              case Going(e) => r'.books.reports == r.books.reports && r'.pending == r.pending + [JobOf(r.(e := e))]
  {
    hide Capture, Abort, SubmitFinalize, HeardAt, Chosen;
    PassMoves(c, r, p);
    EndsReport(r);
    EndsReport(CapturePass(c, r, p));
  }

  // ----- Verdicts on their way ----------------------------------------------------------------

  /** What an event does to the verdicts. One that ends a recording empties the inbox: a loss or a discard parks all, a
      handover gives the job the first that names it and parks the others. Nothing else takes one out. */
  ghost predicate VerdictsMoved(c: Config, r: Recorder, ev: Event, r': Recorder)
    requires EventFits(c, ev)
  {
    if r.mode.Idle? || EndingOf(c, r, ev).Continues? then
      && r'.parked == r.parked
      && r'.inbox == r.inbox + if ev.Submit? then [ev.verdict] else []
    else
      && r'.inbox == [] && r.parked <= r'.parked
      && var parked := r'.parked[|r.parked|..];
         if EndingOf(c, r, ev).HandedOver? then
           && r'.books.submitted != [] && Verdicted(r.inbox, r.id, Last(r'.books.submitted).job.verdict, parked)
         else parked == r.inbox
  }

  lemma AllParked(r: Recorder)
    ensures DrainVerdicts(r, "").inbox == [] && DrainVerdicts(r, "").parked == r.parked + r.inbox
  {
    DrainExact(r.inbox, "");
  }

  lemma AbortParks(r: Recorder)
    ensures Abort(r).inbox == [] && Abort(r).parked == r.parked + r.inbox
  {
    AllParked(r);
  }

  lemma SubmitParks(r: Recorder)
    ensures var r' := SubmitFinalize(r);
            && r'.inbox == [] && r'.parked == r.parked + Unchosen(r.inbox, r.id)
            && r'.books.submitted != [] && Last(r'.books.submitted).job.verdict == Chosen(r.inbox, r.id)
            && Verdicted(r.inbox, r.id, Chosen(r.inbox, r.id), Unchosen(r.inbox, r.id))
  {
    hide Chosen, Unchosen;
    DrainExact(r.inbox, r.id);
  }

  lemma PassMoves(c: Config, r: Recorder, p: Poll)
    requires PollFits(c, p)
    ensures var passed := CapturePass(c, r, p);
            match Capture(c, r.e, p.answers, p.frames)
            case Aborted(_) => passed.inbox == [] && passed.parked == r.parked + r.inbox && passed.mode.Idle?
            case Going(e) => passed == r.(e := e, clockSeen := HeardAt([p], r.clockSeen))
  {
    hide Capture, Abort;
    assert Last([p]) == p && Init([p]) == [];
    AbortParks(r);
    assert Abort(r).mode.Idle? by { AbortTold(r, ClockSilent); }
  }

  lemma TickMoves(c: Config, r: Recorder, p: Poll, jobs: seq<JobStatus>, now: real)
    requires PollFits(c, p)
    ensures VerdictsMoved(c, r, Tick(p, jobs, now), OnTick(c, r, p, jobs, now))
  {
    hide CapturePass, Capture, Abort, SubmitFinalize, HeardAt, Chosen, Unchosen, Verdicted, Collected, Still, Rings;
    var collected := Collect(r, jobs);
    PassMoves(c, collected, p);
    var passed := CapturePass(c, collected, p);
    AbortParks(Telemetry(passed));
    SubmitParks(Telemetry(passed));
    assert r.parked + r.inbox == r.parked + r.inbox;
    assert r.inbox + [] == r.inbox;
  }

  /** No verdict is touched but as VerdictsMoved says. */
  lemma InboxTold(c: Config, r: Recorder, ev: Event)
    requires EventFits(c, ev)
    ensures VerdictsMoved(c, r, ev, Next(c, r, ev))
  {
    hide OnTick, CapturePass, Capture, SubmitFinalize, HeardAt, Chosen, Unchosen, Verdicted;
    assert r.inbox + [] == r.inbox;
    match ev
    case Submit(_) =>
    case Tick(p, jobs, now) => TickMoves(c, r, p, jobs, now);
    case Control(channel, code, env) =>
      AllParked(r);
      PassMoves(c, r, env.poll);
      SubmitParks(CapturePass(c, r, env.poll));
  }

  /** The verdicts submitted by these events, in order. */
  function VerdictsOf(evs: seq<Event>): seq<Request> {
    if evs == [] then []
    else VerdictsOf(Init(evs)) + if Last(evs).Submit? then [Last(evs).verdict] else []
  }

  /** The inbox holds, in order, the last of the verdicts found at boot and submitted since: all that came after the
      event that last emptied it. */
  lemma {:induction false} InboxIsWhatCame(c: Config, rs: seq<Recorder>, evs: seq<Event>, i: nat)
      returns (came: seq<Request>)
    requires IsRun(c, rs, evs) && i < |rs|
    ensures came == rs[0].inbox + VerdictsOf(evs[..i])
    ensures |rs[i].inbox| <= |came| && rs[i].inbox == came[|came| - |rs[i].inbox|..]
  {
    hide Next, Admissible, EndingOf, VerdictsMoved;
    if i == 0 {
      came := rs[0].inbox;
      assert evs[..0] == [] && rs[0].inbox + [] == rs[0].inbox;
    } else {
      var before := InboxIsWhatCame(c, rs, evs, i - 1);
      var ev := evs[i - 1];
      assert rs[i - 1 + 1] == Next(c, rs[i - 1], ev);
      InboxTold(c, rs[i - 1], ev);
      var more := if ev.Submit? then [ev.verdict] else [];
      SnocParts(evs[..i - 1], ev);
      assert evs[..i] == evs[..i - 1] + [ev];
      Assoc(rs[0].inbox, VerdictsOf(evs[..i - 1]), more);
      came := before + more;
      InboxStep(c, rs[i - 1], ev, rs[i]);
    }
  }

  lemma InboxStep(c: Config, r: Recorder, ev: Event, r': Recorder)
    requires EventFits(c, ev) && VerdictsMoved(c, r, ev, r')
    ensures r'.inbox == [] || r'.inbox == r.inbox + if ev.Submit? then [ev.verdict] else []
  {
    hide EndingOf, Verdicted;
  }

  // ----- The history of every episode ---------------------------------------------------------

  lemma StepOf(c: Config, rs: seq<Recorder>, evs: seq<Event>, m: nat)
    requires IsRun(c, rs, evs) && m < |evs|
    ensures EventFits(c, evs[m]) && rs[m + 1] == Next(c, rs[m], evs[m])
    ensures rs[m].mode.Recording? ==> Told(rs[m], EndingOf(c, rs[m], evs[m]), rs[m + 1])
    ensures rs[m].mode.Idle? ==>
              && rs[m + 1].books.submitted == rs[m].books.submitted
              && rs[m + 1].books.discarded == rs[m].books.discarded
              && LostIds(rs[m + 1].books.reports) == LostIds(rs[m].books.reports)
  {
    hide Next, Told, EndingOf, LostIds;
    if rs[m].mode.Recording? {
      EndingTold(c, rs[m], evs[m]);
    } else {
      IdleTold(c, rs[m], evs[m]);
    }
  }

  /** The event that handed a submission over. */
  lemma {:induction false} SubmittedAt(c: Config, rs: seq<Recorder>, evs: seq<Event>, i: nat, s: Submission)
      returns (m: nat)
    requires IsRun(c, rs, evs) && i < |rs| && s in rs[i].books.submitted
    ensures m < i && m < |evs| && EventFits(c, evs[m]) && rs[m].mode.Recording?
    ensures EndingOf(c, rs[m], evs[m]) == HandedOver(s.e) && s.job == JobOf(rs[m].(e := s.e))
    ensures m + 1 < |rs| && rs[m + 1].books.submitted != [] && Last(rs[m + 1].books.submitted) == s
  {
    hide Next, EndingOf, LostIds, Admissible, JobOf;
    assert i > 0;
    StepOf(c, rs, evs, i - 1);
    if s in rs[i - 1].books.submitted {
      m := SubmittedAt(c, rs, evs, i - 1, s);
    } else {
      m := i - 1;
    }
  }

  /** The event that lost an episode. */
  lemma {:induction false} LostAt(c: Config, rs: seq<Recorder>, evs: seq<Event>, i: nat, id: string) returns (m: nat)
    requires IsRun(c, rs, evs) && i < |rs| && id in LostIds(rs[i].books.reports)
    ensures m < i && m < |evs| && EventFits(c, evs[m]) && rs[m].mode.Recording?
    ensures EndingOf(c, rs[m], evs[m]).LostNow? && rs[m].id == id
  {
    hide Next, EndingOf, Admissible;
    assert i > 0;
    StepOf(c, rs, evs, i - 1);
    if id in LostIds(rs[i - 1].books.reports) {
      m := LostAt(c, rs, evs, i - 1, id);
    } else {
      m := i - 1;
    }
  }

  lemma PollOf(ev: Event) returns (p: Poll)
    requires ev.Tick? || IsStop(ev)
    ensures PollsOf([ev]) == [p] && p == if ev.Tick? then ev.poll else ev.env.poll
  {
    assert Last([ev]) == ev && Init([ev]) == [];
    p := if ev.Tick? then ev.poll else ev.env.poll;
  }

  /** Why a recording is lost, if it is: its pass aborts, or it goes on with an overdue clock. */
  function LossOf(pass: Pumped, overdue: bool): Option<Reason> {
    match pass
    case Aborted(why) => Some(why)
    case Going(_) => if overdue then Some(ClockSilent) else None
  }

  function WhyLost(ending: Ending): Option<Reason> {
    if ending.LostNow? then Some(ending.why) else None
  }

  lemma EndedByPoll(c: Config, r: Recorder, ev: Event)
    requires EventFits(c, ev) && (EndingOf(c, r, ev).HandedOver? || EndingOf(c, r, ev).LostNow?)
    ensures ev.Tick? || IsStop(ev)
    ensures var p := if ev.Tick? then ev.poll else ev.env.poll;
            var overdue := ev.Tick? && ev.now - HeardAt([p], r.clockSeen) > 1.0;
            && PollFits(c, p)
            && WhyLost(EndingOf(c, r, ev)) == LossOf(Capture(c, r.e, p.answers, p.frames), overdue)
            && (EndingOf(c, r, ev).HandedOver? ==> Capture(c, r.e, p.answers, p.frames) == Going(EndingOf(c, r, ev).e))
            && (EndingOf(c, r, ev).HandedOver? && ev.Tick? ==> |EndingOf(c, r, ev).e.rows| >= 1800)
  {
    hide Capture, HeardAt;
  }

  /** The poll of the event that ends a recording ends its replay. */
  lemma ReplayedTo(c: Config, r: Recorder, env: Env, polls: seq<Poll>, ev: Event)
    requires EventFits(c, ev) && Replayed(c, r, env, polls)
    requires EndingOf(c, r, ev).HandedOver? || EndingOf(c, r, ev).LostNow?
    ensures AllFit(c, polls + PollsOf([ev]))
    ensures var all := polls + PollsOf([ev]); var replay := Replay(c, Fresh(PeriodNs(r.recHz), env.wallNs), all);
            && (EndingOf(c, r, ev).HandedOver? ==> replay == Going(EndingOf(c, r, ev).e))
            && WhyLost(EndingOf(c, r, ev)) ==
                 LossOf(replay, ev.Tick? && ev.now - HeardAt(all, env.now) > 1.0)
  {
    hide Capture, Replay, EndingOf, PollsOf, PeriodNs, RecordHz, EventFits;
    EndedByPoll(c, r, ev);
    var p := PollOf(ev);
    ReplaySnoc(c, Fresh(PeriodNs(r.recHz), env.wallNs), polls, p);
    assert HeardAt([p], r.clockSeen) == HeardAt(polls + [p], env.now) by { assert Last([p]) == p && Init([p]) == []; }
  }

  /** The episode is the replay of the polls since event k, a START, up to and including the poll of event m, which
      hands it over: a STOP, or a tick at the cap with the clock not overdue. The job carries that START's identity,
      context and rate, and the first verdict then in the inbox that names it. */
  ghost predicate RecordedBy(c: Config, rs: seq<Recorder>, evs: seq<Event>, s: Submission, k: nat, m: nat) {
    && m < |evs| && Since(rs, evs, k, m)
    && (IsStop(evs[m]) || (evs[m].Tick? && |s.job.rows| >= 1800))
    && var env := evs[k].env; var polls := PollsOf(evs[k + 1..m + 1]);
       var hz := RecordHz(env.requestedHz, c.clock.rateHz);
       && AllFit(c, polls)
       && Replay(c, FreshBy(c, env), polls) == Going(s.e)
       && s.job == Job(env.newId, env.context, s.e.rows, hz, s.job.verdict)
       && m + 1 < |rs| && rs[m].parked <= rs[m + 1].parked
       && Verdicted(rs[m].inbox, env.newId, s.job.verdict, rs[m + 1].parked[|rs[m].parked|..])
       && (evs[m].Tick? ==> evs[m].now - HeardAt(polls, env.now) <= 1.0)
  }

  /** The empty episode of a START. */
  function FreshBy(c: Config, env: Env): Episode {
    Fresh(PeriodNs(RecordHz(env.requestedHz, c.clock.rateHz)), env.wallNs)
  }

  /** Every submitted episode is the replay of the polls since its own START, up to the event that handed it over. */
  lemma SubmissionHistory(c: Config, rs: seq<Recorder>, evs: seq<Event>, s: Submission) returns (k: nat, m: nat)
    requires IsRun(c, rs, evs) && s in Last(rs).books.submitted
    ensures RecordedBy(c, rs, evs, s, k, m)
  {
    hide Next, Admissible, Replay, Capture, EndingOf, PollsOf, AllFit, HeardAt, Chosen, PeriodNs, RecordHz,
      Verdicted, LostIds, Told;
    m := SubmittedAt(c, rs, evs, |rs| - 1, s);
    k := RecordingSince(c, rs, evs, m);
    EndedByPoll(c, rs[m], evs[m]);
    ReplayedTo(c, rs[m], evs[k].env, PollsOf(evs[k + 1..m]), evs[m]);
    PollsOfOne(evs[k + 1..m], evs[m]);
    assert evs[k + 1..m + 1] == evs[k + 1..m] + [evs[m]];
    StepOf(c, rs, evs, m);
    InboxTold(c, rs[m], evs[m]);
  }

  /** What START asked for and the polls up to this event are a reason to lose the recording. */
  ghost predicate LostFor(c: Config, env: Env, polls: seq<Poll>, ev: Event, why: Reason) {
    && AllFit(c, polls)
    && var overdue := ev.Tick? && ev.now - HeardAt(polls, env.now) > 1.0;
       Some(why) == LossOf(Replay(c, FreshBy(c, env), polls), overdue)
  }

  /** And every lost episode was lost for a reason: the replay of the polls since its START aborts, for that reason;
      or it goes on, but a tick found that none of them had heard the clock for too long. */
  lemma LossHistory(c: Config, rs: seq<Recorder>, evs: seq<Event>, id: string) returns (k: nat, m: nat, why: Reason)
    requires IsRun(c, rs, evs) && id in LostIds(Last(rs).books.reports)
    ensures m < |evs| && Since(rs, evs, k, m) && evs[k].env.newId == id
    ensures LostFor(c, evs[k].env, PollsOf(evs[k + 1..m + 1]), evs[m], why)
  {
    hide Next, Admissible, Replay, Capture, LostIds, EndingOf;
    m := LostAt(c, rs, evs, |rs| - 1, id);
    k := RecordingSince(c, rs, evs, m);
    why := EndingOf(c, rs[m], evs[m]).why;
    ReplayedTo(c, rs[m], evs[k].env, PollsOf(evs[k + 1..m]), evs[m]);
    PollsOfOne(evs[k + 1..m], evs[m]);
    assert evs[k + 1..m + 1] == evs[k + 1..m] + [evs[m]];
  }

  // ----- What that means for rows and frames --------------------------------------------------

  lemma SinceUnique(rs: seq<Recorder>, evs: seq<Event>, k: nat, k': nat, i: nat, j: nat)
    requires Since(rs, evs, k, i) && Since(rs, evs, k', j) && i <= j && k' < i
    ensures k == k'
  {
  }

  lemma {:induction false} ReplayGrows(c: Config, period: nat, t0: int, polls: seq<Poll>, n: nat)
    requires AllFit(c, polls) && n <= |polls| && Replay(c, Fresh(period, t0), polls).Going?
    ensures AllFit(c, polls[..n]) && Replay(c, Fresh(period, t0), polls[..n]).Going?
    ensures Replay(c, Fresh(period, t0), polls[..n]).e.rows <= Replay(c, Fresh(period, t0), polls).e.rows
    decreases |polls|
  {
    hide Capture, Sound, Arrived;
    if n == |polls| {
      assert polls[..n] == polls;
    } else {
      assert Init(polls)[..n] == polls[..n];
      ReplayGrows(c, period, t0, Init(polls), n);
      ReplaySound(c, period, t0, Init(polls));
      CaptureLedger(c, Replay(c, Fresh(period, t0), Init(polls)).e, Last(polls));
    }
  }

  lemma {:induction false} PollsConcat(a: seq<Event>, b: seq<Event>)
    ensures PollsOf(a + b) == PollsOf(a) + PollsOf(b)
  {
    if b == [] {
      assert a + b == a;
    } else {
      hide PollsOf;
      PollsConcat(a, Init(b));
      PollsOfOne(a + Init(b), Last(b));
      PollsOfOne(Init(b), Last(b));
      Unsnoc(b);
      AppendSnoc(a, b);
    }
  }

  /** While a recording lasts, the clock frames polled since its START are conserved in order: each is consumed
      or deferred. And its rows only grow. */
  lemma FramesConserved(c: Config, rs: seq<Recorder>, evs: seq<Event>, i: nat, j: nat) returns (k: nat)
    requires IsRun(c, rs, evs) && i <= j < |rs|
    requires forall h :: i <= h <= j ==> rs[h].mode.Recording?
    ensures k < i && Since(rs, evs, k, j)
    ensures ClockOf(PollsOf(evs[k + 1..j])) == Frames(rs[j].e.log.consumed) + rs[j].e.deferred
    ensures rs[i].id == rs[j].id == evs[k].env.newId && rs[i].e.rows <= rs[j].e.rows
  {
    hide Next, Admissible, Replay, Arrived;
    k := RecordingSince(c, rs, evs, j);
    if i <= k {
      assert false;
    }
    var k' := RecordingSince(c, rs, evs, i);
    SinceUnique(rs, evs, k', k, i, j);
    var polls := PollsOf(evs[k + 1..j]);
    assert evs[k + 1..j] == evs[k + 1..i] + evs[i..j];
    PollsConcat(evs[k + 1..i], evs[i..j]);
    var early := PollsOf(evs[k + 1..i]);
    assert polls[..|early|] == early;
    ReplaySound(c, PeriodNs(rs[j].recHz), evs[k].env.wallNs, polls);
    ReplayGrows(c, PeriodNs(rs[j].recHz), evs[k].env.wallNs, polls, |early|);
  }

  lemma {:induction false} OfInFrames(entries: seq<Entry>, fate: Fate)
    ensures forall f :: f in Of(entries, fate) ==> f in Frames(entries)
  {
    if entries != [] {
      OfInFrames(Init(entries), fate);
      assert Frames(entries) == Frames(Init(entries)) + [Last(entries).frame];
    }
  }

  lemma RecordedInClock(c: Config, e: Episode, f: Sample)
    requires Sound(c, e) && f in Of(e.log.consumed, Recorded)
    ensures f in e.log.drained
  {
    OfInFrames(e.log.consumed, Recorded);
  }

  /** A sample that one of these polls handed to the source: with the clock frame's id if the source is paired, in
      tolerance of it if not. */
  ghost predicate HandedTo(c: Config, polls: seq<Poll>, s: Source, v: Sample, f: Sample) {
    Arrived(c, polls, s.topic, v) && if s.paired then v.fid == f.fid else Near(s, v.ts, f.ts)
  }

  /** Every value of every submitted row came from a poll since the episode's START: it is the row's own clock
      frame, or was handed to the last source to claim that feature; and it is the newest that source was offered for
      the frame when the row was recorded, by the (n+1)-st of those polls. */
  lemma EveryValueArrived(c: Config, rs: seq<Recorder>, evs: seq<Event>, s: Submission, i: nat)
      returns (k: nat, m: nat, f: Sample, n: nat)
    requires IsRun(c, rs, evs) && s in Last(rs).books.submitted && i < |s.job.rows|
    ensures m < |evs| && Since(rs, evs, k, m) && s.job.id == evs[k].env.newId
    ensures var polls := PollsOf(evs[k + 1..m + 1]); var row := s.job.rows[i];
            && f in ClockOf(polls) && row.ts == f.ts >= evs[k].env.wallNs
            && (forall feature :: feature in row.data ==>
                  match Claimant(c.others, feature)
                  case None => feature == c.clock.feature && row.data[feature] == f
                  case Some(src) => HandedTo(c, polls, src, row.data[feature], f))
            && RecordedAt(c, FreshBy(c, evs[k].env), polls, i, n)
            && FilledNewest(c, polls[..n + 1], row, f)
  {
    hide Replay, Arrived, Next, Admissible, Sound, Capture, Claimant, FilledNewest, RecordedAt;
    k, m := SubmissionHistory(c, rs, evs, s);
    var env, polls := evs[k].env, PollsOf(evs[k + 1..m + 1]);
    ReplaySound(c, PeriodNs(s.job.recHz), env.wallNs, polls);
    f := RowValues(c, s.e, i, c.clock.feature);
    RecordedInClock(c, s.e, f);
    n := RowIsNewest(c, PeriodNs(s.job.recHz), env.wallNs, polls, i);
    assert AllFit(c, polls[..n + 1]) by { RecordedFits(c, FreshBy(c, env), polls, i, n); }
    var row := s.job.rows[i];
    forall feature | feature in row.data
      ensures match Claimant(c.others, feature)
              case None => feature == c.clock.feature && row.data[feature] == f
              case Some(src) => HandedTo(c, polls, src, row.data[feature], f)
    {
      var f' := RowValues(c, s.e, i, feature);
    }
  }

  lemma RecordedFits(c: Config, start: Episode, polls: seq<Poll>, i: nat, n: nat)
    requires RecordedAt(c, start, polls, i, n)
    ensures n < |polls| && AllFit(c, polls[..n + 1])
  {
  }

  /** With only paired sources and one answer per id since START, the rows of a submitted episode depend on nothing
      but its START and the clock: they are the one-pass rows of the frames polled since, up to at most eight still
      waiting. */
  lemma SubmittedIsOnePass(c: Config, rs: seq<Recorder>, evs: seq<Event>, s: Submission, answer: (Topic, nat) -> Sample)
      returns (k: nat, m: nat, n: nat)
    requires IsRun(c, rs, evs) && s in Last(rs).books.submitted && AllPaired(c)
    ensures m < |evs| && Since(rs, evs, k, m) && s.job.id == evs[k].env.newId
    ensures var env := evs[k].env; var polls := PollsOf(evs[k + 1..m + 1]); var clock := ClockOf(polls);
            var period := PeriodNs(RecordHz(env.requestedHz, c.clock.rateHz));
            && n <= |clock| <= n + CLOCK_BUFFER
            && (AnswersAre(c, polls, answer) ==> s.job.rows == OnePass(c, answer, period, env.wallNs, clock[..n]))
  {
    hide Replay, Arrived, Next, Admissible, Sound, Capture, OnePass;
    k, m := SubmissionHistory(c, rs, evs, s);
    var polls := PollsOf(evs[k + 1..m + 1]);
    ReplaySound(c, PeriodNs(s.job.recHz), evs[k].env.wallNs, polls);
    if AnswersAre(c, polls, answer) {
      RowsAreOnePass(c, s.e, answer);
    }
    SoundConserves(c, s.e);
    n := |s.e.log.consumed|;
    assert ClockOf(polls)[..n] == Frames(s.e.log.consumed);
  }

  /** Every sample polled is the one answer to its id on its topic. */
  ghost predicate AnswersAre(c: Config, polls: seq<Poll>, answer: (Topic, nat) -> Sample) {
    forall t, x :: Arrived(c, polls, t, x) ==> x == answer(t, x.fid)
  }

  lemma SoundConserves(c: Config, e: Episode)
    requires Sound(c, e)
    ensures e.log.drained == Frames(e.log.consumed) + e.deferred
  {
  }
}
