/** The recorder service itself: fields updated in place, one method per handler, each proved to do
    exactly the step RecorderModel describes.

    Row lists are heap objects. A handler may modify only the service and its live list, so the list a
    finalize job was handed can never change again; `Valid` keeps all of them apart. */
module RecorderService {
  import opened Basics
  import opened Grid
  import opened CaptureEngine
  import opened Finalize
  import M = RecorderModel

  class RowList {
    var items: seq<Row>

    constructor ()
      ensures items == []
    {
      items := [];
    }

    method Append(r: Row)
      modifies this
      ensures items == old(items) + [r]
    {
      items := items + [r];
    }
  }

  /** What the pool holds: the job's arguments, the row list by reference. */
  datatype PendingJob = PendingJob(id: string, context: string, rows: RowList, recHz: real, verdict: Option<Request>)

  function RowLists(pending: seq<PendingJob>): set<RowList> {
    set i | 0 <= i < |pending| :: pending[i].rows
  }

  ghost predicate Apart(pending: seq<PendingJob>) {
    forall i, j :: 0 <= i < j < |pending| ==> pending[i].rows != pending[j].rows
  }

  function LastOf<T>(s: seq<T>): Option<T> {
    if s == [] then None else Some(Last(s))
  }

  ghost function JobOf(p: PendingJob): M.Job
    reads p.rows
  {
    M.Job(p.id, p.context, p.rows.items, p.recHz, p.verdict)
  }

  ghost function JobsOf(pending: seq<PendingJob>): (jobs: seq<M.Job>)
    reads RowLists(pending)
    ensures |jobs| == |pending|
    ensures forall i :: 0 <= i < |pending| ==> jobs[i] == JobOf(pending[i])
  {
    seq(|pending|, i requires 0 <= i < |pending| reads RowLists(pending) => JobOf(pending[i]))
  }

  class DataRecorder {
    const c: Config

    var mode: M.Mode
    var captureId: string
    var context: string
    var recHz: real
    var clockSeen: real
    var deferred: seq<Sample>
    var rows: RowList
    var cache: map<Topic, Sample>
    var pairCache: map<Topic, map<nat, Sample>>
    var periodNs: nat
    var nextDue: int
    var lastTs: int
    var t0Ns: int

    var teleFid: nat
    var teleLast: Option<M.Content>
    var cell: Option<Cell<M.Content>> // the published telemetry cell
    var pending: seq<PendingJob>
    var inbox: seq<Request>           // verdict files waiting, oldest first
    var parked: seq<Request>          // quarantined
    var rung: seq<nat>                // ids rung on recorder/episode

    ghost var log: Ledger
    ghost var books: M.Books

    /** Pending jobs do not share row lists, and the cell is the last one published. */
    ghost predicate Separate()
      reads this
    {
      Apart(pending) && cell == LastOf(books.cells)
    }

    ghost predicate Valid()
      reads this
    {
      Separate() && rows !in RowLists(pending)
    }

    ghost function Ep(): Episode
      reads this, rows
    {
      Episode(deferred, rows.items, cache, pairCache, periodNs, nextDue, lastTs, t0Ns, log)
    }

    /** Everything but the pending jobs. */
    ghost function Core(): M.Recorder
      reads this, rows
    {
      M.Recorder(mode, captureId, context, recHz, clockSeen, Ep(), teleFid, teleLast, [], inbox, parked, rung, books)
    }

    ghost function State(): M.Recorder
      reads this, rows, RowLists(pending)
    {
      Core().(pending := JobsOf(pending))
    }

    constructor (c: Config, waiting: seq<Request>)
      ensures Valid() && fresh(rows)
      ensures this.c == c && State() == M.Boot(waiting)
    {
      this.c := c;
      mode, captureId, context, recHz, clockSeen := M.Idle, "", "", 0.0, 0.0;
      deferred, cache, pairCache := [], map[], map[];
      rows := new RowList();
      periodNs, nextDue, lastTs, t0Ns := 0, 0, 0, 0;
      teleFid, teleLast, cell := 0, None, None;
      pending, inbox, parked, rung := [], waiting, [], [];
      log := Ledger([], {}, []);
      books := M.Books([], [], [], [], waiting, []);
    }

    method ResetEpisode()
      requires rows.items == []
      modifies this`deferred, this`cache, this`pairCache, this`log
      modifies this`periodNs, this`nextDue, this`lastTs, this`t0Ns
      ensures Ep() == Fresh(0, 0)
    {
      deferred, cache, pairCache := [], map[], map[];
      periodNs, nextDue, lastTs, t0Ns := 0, 0, 0, 0;
      log := Ledger([], {}, []);
    }

    /** Rebinds every list; the old row list is left as it is, for whoever holds it. */
    method Reset()
      requires Separate()
      modifies this
      ensures Valid() && fresh(rows) && pending == old(pending)
      ensures Core() == M.Reset(old(Core()))
    {
      hide Apart;
      var empty := new RowList();
      assert empty !in RowLists(pending);
      hide RowLists;
      rows := empty;
      ResetEpisode();
      ResetIdentity();
    }

    method ResetIdentity()
      modifies this`captureId, this`context, this`recHz, this`clockSeen
      ensures captureId == "" && context == "" && recHz == 0.0 && clockSeen == 0.0
    {
      captureId, context, recHz, clockSeen := "", "", 0.0, 0.0;
    }

    method Telemetry()
      requires Valid()
      modifies this
      ensures Valid() && rows == old(rows) && pending == old(pending)
      ensures Core() == M.Telemetry(old(Core()))
    {
      hide Apart, RowLists;
      var now := M.Content(if mode.Recording? then 1 else 0, |rows.items|, captureId);
      if teleLast == Some(now) {
        return;
      }
      Put(now);
    }

    method Put(now: M.Content)
      modifies this`teleLast, this`teleFid, this`cell, this`books
      ensures cell == LastOf(books.cells)
      ensures teleLast == Some(now) && teleFid == old(teleFid) + 1
      ensures books == old(books).(cells := old(books).cells + [Cell(teleFid, now)])
    {
      teleLast := Some(now);
      teleFid := teleFid + 1;
      cell := Some(Cell(teleFid, now));
      books := books.(cells := books.cells + [Cell(teleFid, now)]);
    }

    /** Match or quarantine: the first request naming `id` is returned, everything else is parked in order. */
    method DrainVerdicts(id: string) returns (matched: Option<Request>)
      requires Valid()
      modifies this`inbox, this`parked
      ensures matched == M.Chosen(old(inbox), id)
      ensures inbox == [] && parked == old(parked) + M.Unchosen(old(inbox), id)
      ensures old(parked) <= parked && M.Verdicted(old(inbox), id, matched, parked[|old(parked)|..])
    {
      hide M.Chosen, M.Unchosen;
      M.DrainExact(inbox, id);
      matched := None;
      var reqs := inbox;
      inbox := [];
      NoneChosen(id);
      for i := 0 to |reqs|
        invariant inbox == []
        invariant matched == M.Chosen(reqs[..i], id)
        invariant parked == old(parked) + M.Unchosen(reqs[..i], id)
      {
        ChosenSnoc(reqs[..i], reqs[i], id);
        assert reqs[..i + 1] == reqs[..i] + [reqs[i]];
        if M.Names(reqs[i], id) && matched == None {
          matched := Some(reqs[i]);
        } else {
          parked := parked + [reqs[i]];
        }
      }
      assert reqs[..|reqs|] == reqs;
    }

    method Abort()
      requires Valid()
      modifies this
      ensures Valid() && fresh(rows) && pending == old(pending)
      ensures Core() == M.Abort(old(Core()))
    {
      hide Apart, RowLists, M.Telemetry, M.Unchosen, LastOf;
      ghost var lost := captureId;
      var _ := DrainVerdicts("");
      assert Core() == M.DrainVerdicts(old(Core()), "");
      Reset();
      mode := M.Idle;
      Telemetry();
      rung := rung + [EP_FAILED];
      books := books.(reports := books.reports + [M.Lost(lost)]);
    }

    /** Hand the live row list over and start on a new one. */
    method SubmitFinalize()
      requires Valid()
      modifies this
      ensures Valid() && fresh(rows)
      ensures |pending| == |old(pending)| + 1 && Init(pending) == old(pending) && Last(pending).rows == old(rows)
      ensures State() == M.SubmitFinalize(old(State()))
    {
      hide Apart, M.Telemetry, M.Chosen, M.Unchosen, LastOf;
      TellIgnoresPending(AfterHandover(old(Core())), old(JobsOf(pending)) + [M.JobOf(old(Core()))]);
      HandOver();
      Reset();
      mode := M.Idle;
      Telemetry();
      assert JobsOf(pending) == old(JobsOf(pending)) + [M.JobOf(old(Core()))];
    }

    /** Drain the verdicts and queue the job, by reference to the live row list. */
    method HandOver()
      requires Valid()
      modifies this`pending, this`books, this`inbox, this`parked
      ensures Separate() && |pending| == |old(pending)| + 1 && Init(pending) == old(pending)
      ensures Last(pending).rows == rows && JobOf(Last(pending)) == M.JobOf(old(Core()))
      ensures Core() == Handed(old(Core()))
    {
      hide LastOf, M.Chosen, M.Unchosen;
      var verdict := DrainVerdicts(captureId);
      var job := PendingJob(captureId, context, rows, recHz, verdict);
      RowListsSnoc(pending, job);
      books := books.(submitted := books.submitted + [M.Submission(JobOf(job), Ep())]);
      pending := pending + [job];
    }

    /** One source's answers: hold by id, then evict smallest ids down to the cache size. */
    method HoldAnswers(s: Source, got: seq<Sample>)
      requires s.paired
      modifies this`pairCache, this`log
      ensures Ep() == Refresh(s, old(Ep()), got)
    {
      var held := if s.topic in pairCache then pairCache[s.topic] else map[];
      ghost var start := held;
      for i := 0 to |got|
        invariant held == Hold(start, got[..i])
      {
        assert Init(got[..i + 1]) == got[..i];
        held := held[got[i].fid := got[i]];
      }
      assert got[..|got|] == got;
      held := EvictSmallest(held);
      pairCache := pairCache[s.topic := held];
      log := log.(delivered := log.delivered + Delivery(s, got));
    }

    static method EvictSmallest(full: map<nat, Sample>) returns (held: map<nat, Sample>)
      ensures held == Trim(full)
    {
      held := full;
      while |held| > PAIR_CACHE
        invariant Trim(held) == Trim(full)
        decreases |held|
      {
        assert held.Keys != {};
        var m := Least(held.Keys);
        assert (held - {m}).Keys == held.Keys - {m};
        held := held - {m};
      }
    }

    method RefreshSources(polls: seq<seq<Sample>>)
      requires |polls| == |c.others|
      modifies this`cache, this`pairCache, this`log
      ensures Ep() == RefreshAll(c.others, old(Ep()), polls)
    {
      for i := 0 to |c.others|
        invariant Ep() == RefreshAll(c.others[..i], old(Ep()), polls[..i])
      {
        var s := c.others[i];
        assert Init(c.others[..i + 1]) == c.others[..i] && Init(polls[..i + 1]) == polls[..i];
        if s.paired {
          HoldAnswers(s, polls[i]);
        } else if polls[i] != [] {
          cache := cache[s.topic := Last(polls[i])];
          log := log.(delivered := log.delivered + Delivery(s, polls[i]));
        }
      }
      assert c.others[..|c.others|] == c.others && polls[..|polls|] == polls;
    }

    /** Every paired source holds the answer to this frame id. */
    method PairedAnswered(f: Sample) returns (matched: bool)
      ensures matched <==> Matched(c, Ep(), f)
    {
      for i := 0 to |c.others|
        invariant forall j :: 0 <= j < i ==> Answered(c.others[j], Ep(), f.fid)
      {
        var s := c.others[i];
        if s.paired && (s.topic !in pairCache || f.fid !in pairCache[s.topic]) {
          assert s in c.others && !Answered(s, Ep(), f.fid);
          return false;
        }
      }
      return true;
    }

    /** Every window source has a sample in tolerance of this stamp; `e` has the same cache. */
    method SourcesInWindow(ts: int, ghost e: Episode) returns (inWindow: bool)
      requires cache == e.cache
      ensures inWindow <==> AllInWindow(c, e, ts)
    {
      for i := 0 to |c.others|
        invariant forall j :: 0 <= j < i ==> InWindow(c.others[j], e, ts)
      {
        var s := c.others[i];
        if !s.paired && (s.topic !in cache || Basics.Abs(cache[s.topic].ts - ts) > TolNs(s)) {
          assert s in c.others && !InWindow(s, e, ts);
          return false;
        }
      }
      return true;
    }

    /** The row of frame f; `e` is the episode as it was when f was found to match. */
    method BuildRow(f: Sample, ghost e: Episode) returns (r: Row)
      requires pairCache == e.pairs && cache == e.cache
      requires Matched(c, e, f) && AllInWindow(c, e, f.ts)
      ensures r == RowFor(c, e, f)
    {
      var data := map[c.clock.feature := f];
      for i := 0 to |c.others|
        invariant data == Fill(c, f, c.others[..i], Picks(c, e, f))
      {
        var s := c.others[i];
        assert Init(c.others[..i + 1]) == c.others[..i];
        assert Answered(s, e, f.fid) && InWindow(s, e, f.ts);
        data := data[s.feature := if s.paired then pairCache[s.topic][f.fid] else cache[s.topic]];
      }
      assert c.others[..|c.others|] == c.others;
      r := Row(f.ts, data);
    }

    /** One clock frame: true if it is consumed or ends the episode, false if it must wait. */
    method Frame(f: Sample) returns (consumed: bool)
      requires Valid()
      modifies this, rows
      ensures Valid() && (rows == old(rows) || fresh(rows)) && pending == old(pending)
      ensures consumed <==> !FateOf(c, old(Ep()), f).Waiting?
      ensures FateOf(c, old(Ep()), f).Waiting? ==> Core() == old(Core())
      ensures !FateOf(c, old(Ep()), f).Waiting? ==> Core() == Judged(c, old(Core()), f)
    {
      hide Apart, RowLists, M.Abort;
      var matched := PairedAnswered(f);
      if !matched {
        return false;
      }
      if f.ts < t0Ns {
        log := log.(consumed := log.consumed + [Entry(f, Fenced)]);
        return true;
      }
      if f.ts < lastTs {
        Abort();
        return true;
      }
      GateFrame(f);
      return true;
    }

    /** A matched frame in order: move the grid, then record, skip or abort. */
    method GateFrame(f: Sample)
      requires Valid() && Matched(c, Ep(), f) && f.ts >= t0Ns && f.ts >= lastTs
      modifies this, rows
      ensures Valid() && (rows == old(rows) || fresh(rows)) && pending == old(pending)
      ensures Core() == Judged(c, old(Core()), f)
    {
      hide Apart, RowLists, M.Abort, Matched;
      ghost var e := Ep();
      var d := Gate(f.ts, nextDue, periodNs);
      if d.keep {
        var inWindow := SourcesInWindow(f.ts, e);
        if inWindow {
          var r := BuildRow(f, e);
          Advance(f, d.next, Recorded);
          rows.Append(r);
        } else if rows.items == [] {
          Advance(f, d.next, Skipped);
        } else {
          Abort();
        }
      } else {
        Advance(f, d.next, Gated);
      }
    }

    method Advance(f: Sample, next: int, ghost fate: Fate)
      modifies this`lastTs, this`nextDue, this`log
      ensures Ep() == old(Ep()).(lastTs := f.ts, nextDue := next,
                                 log := old(log).(consumed := old(log).consumed + [Entry(f, fate)]))
    {
      lastTs := f.ts;
      nextDue := next;
      log := log.(consumed := log.consumed + [Entry(f, fate)]);
    }

    /** The head of the queue: true if it was consumed and the recording goes on. */
    method TakeHead() returns (more: bool)
      requires Valid() && mode.Recording? && deferred != []
      modifies this, rows
      ensures Valid() && (rows == old(rows) || fresh(rows)) && pending == old(pending)
      ensures more <==> Final(FateOf(c, old(Ep()), old(deferred)[0]))
      ensures Core() ==
              if more then old(Core()).(e := Consume(c, old(Ep()), old(deferred)[0]).(deferred := old(deferred)[1..]))
                        else AfterPump(old(Core()), Pump(c, old(Ep())))
    {
      hide Apart, RowLists, M.Abort, Consume;
      ghost var e := Ep();
      ghost var fate := FateOf(c, e, deferred[0]);
      ConsumeKeepsQueue(c, e, deferred[0]);
      AbortIdle(Core());
      var consumed := Frame(deferred[0]);
      if !mode.Recording? {
        return false;
      }
      if consumed {
        deferred := deferred[1..];
        return true;
      }
      if |deferred| > CLOCK_BUFFER {
        Abort();
      }
      return false;
    }

    /** One pass: refresh, queue, then consume from the head until a frame waits or the episode ends. */
    method Capture(p: M.Poll)
      requires Valid() && mode.Recording? && M.PollFits(c, p)
      modifies this, rows
      ensures Valid() && (rows == old(rows) || fresh(rows)) && pending == old(pending)
      ensures Core() == M.CapturePass(c, old(Core()), p)
      ensures JobsOf(pending) == old(JobsOf(pending))
    {
      hide Apart, Pump, RefreshAll, M.Abort;
      EnqueuePoll(p);
      ghost var start, full := Core(), Ep();
      PumpUnfolds(c, full);
      var more := true;
      while more && deferred != []
        invariant Valid() && (rows == old(rows) || fresh(rows)) && pending == old(pending)
        invariant more ==> mode.Recording? && Core() == start.(e := Ep()) && Pump(c, Ep()) == Pump(c, full)
        invariant !more ==> Core() == AfterPump(start, Pump(c, full))
        invariant JobsOf(pending) == old(JobsOf(pending))
        decreases more, |deferred|
      {
        PumpUnfolds(c, Ep());
        AfterPumpIgnores(start, Ep(), Pump(c, full));
        more := TakeHead();
      }
      PumpUnfolds(c, Ep());
      assert Core() == AfterPump(start, Pump(c, full));
      AbortIgnores(old(Core()), full, start.clockSeen);
    }

    method EnqueuePoll(p: M.Poll)
      requires M.PollFits(c, p)
      modifies this`cache, this`pairCache, this`log, this`clockSeen, this`deferred
      ensures Core() == old(Core()).(
                e := Enqueue(RefreshAll(c.others, old(Ep()), p.answers), p.frames),
                clockSeen := if p.frames != [] then p.now else old(clockSeen))
    {
      hide RefreshAll;
      RefreshSources(p.answers);
      if p.frames != [] {
        clockSeen := p.now;
      }
      deferred := deferred + p.frames;
      log := log.(drained := log.drained + p.frames);
    }

    method Begin(env: M.Env)
      requires Ep() == Fresh(0, 0)
      modifies this`mode, this`captureId, this`context, this`recHz, this`clockSeen, this`periodNs, this`t0Ns
      ensures var hz := RecordHz(env.requestedHz, c.clock.rateHz);
              && mode.Recording? && captureId == env.newId && context == env.context && recHz == hz
              && clockSeen == env.now && Ep() == Fresh(PeriodNs(hz), env.wallNs)
    {
      context := env.context;
      recHz := RecordHz(env.requestedHz, c.clock.rateHz);
      periodNs := PeriodNs(recHz);
      t0Ns := env.wallNs;
      clockSeen := env.now;
      captureId := env.newId;
      mode := M.Recording;
    }

    method Start(env: M.Env)
      requires Valid() && mode.Idle?
      modifies this
      ensures Valid() && fresh(rows) && pending == old(pending)
      ensures Core() == M.Start(c, old(Core()), env)
    {
      hide Apart, RowLists, M.Telemetry;
      Reset();
      Begin(env);
      books := books.(started := books.started + [env.newId]);
      Telemetry();
    }

    method Discard()
      requires Valid() && mode.Recording?
      modifies this
      ensures Valid() && fresh(rows) && pending == old(pending)
      ensures Core() == M.Discard(old(Core()))
    {
      hide Apart, RowLists, M.Telemetry, M.Unchosen, LastOf;
      NoteDiscard();
      var _ := DrainVerdicts("");
      Reset();
      mode := M.Idle;
      Telemetry();
    }

    ghost method NoteDiscard()
      requires Valid()
      modifies this`books
      ensures Valid() && Core() == old(Core()).(books := old(books).(discarded := old(books).discarded + [captureId]))
    {
      books := books.(discarded := books.discarded + [captureId]);
    }

    method Stop(p: M.Poll)
      requires Valid() && mode.Recording? && M.PollFits(c, p)
      modifies this, rows
      ensures Valid() && (rows == old(rows) || fresh(rows))
      ensures State() == M.Stop(c, old(State()), p)
    {
      hide Apart, M.CapturePass, M.SubmitFinalize;
      PassIgnoresPending(c, old(Core()), p, JobsOf(pending));
      Capture(p);
      if mode.Recording? {
        SubmitFinalize();
      }
    }

    method OnEvent(channel: string, code: nat, env: M.Env)
      requires Valid() && M.PollFits(c, env.poll)
      modifies this, rows
      ensures Valid() && (rows == old(rows) || fresh(rows))
      ensures State() == M.OnEvent(c, old(State()), channel, code, env)
      ensures JobsOf(old(pending)) == old(JobsOf(pending))
    {
      hide Apart, M.Start, M.Discard, M.Stop;
      if channel != M.CONTROL {
        return;
      }
      if code == M.CTL_START {
        if mode.Idle? {
          StartIgnoresPending(c, old(Core()), env, JobsOf(pending));
          Start(env);
        }
      } else if code == M.CTL_DISCARD && mode.Recording? {
        DiscardIgnoresPending(old(Core()), JobsOf(pending));
        Discard();
      } else if code == M.CTL_STOP && mode.Recording? {
        Stop(env.poll);
      }
    }

    /** Ring the result of every job that has finished; return the others. */
    method RingFinished(jobs: seq<M.JobStatus>) returns (still: seq<PendingJob>, ghost reports: seq<M.Report>)
      modifies this`rung
      ensures still == StillPending(pending, jobs)
      ensures reports == M.Collected(JobsOf(pending), jobs)
      ensures rung == old(rung) + M.Rings(reports)
    {
      hide M.OutcomeOf, M.Rings;
      ghost var all := JobsOf(pending);
      still, reports := [], [];
      NoRings();
      for i := 0 to |pending|
        invariant JobsOf(pending) == all
        invariant still == StillPending(pending[..i], jobs)
        invariant reports == M.Collected(all[..i], jobs)
        invariant rung == old(rung) + M.Rings(reports)
      {
        assert Init(all[..i + 1]) == all[..i] && Init(pending[..i + 1]) == pending[..i];
        match M.StatusOf(jobs, i)
        case Running => still := still + [pending[i]];
        case Finished(written) =>
          var job := pending[i];
          var outcome := M.OutcomeOf(M.Job(job.id, job.context, job.rows.items, job.recHz, job.verdict), written);
          rung := rung + [Code(outcome)];
          RingsSnoc(reports, M.Done(all[i], outcome));
          reports := reports + [M.Done(all[i], outcome)];
      }
      assert pending[..|pending|] == pending && all[..|pending|] == all;
    }

    method Collect(jobs: seq<M.JobStatus>)
      requires Valid()
      modifies this`pending, this`rung, this`books
      ensures Valid()
      ensures State() == M.Collect(old(State()), jobs)
    {
      hide Apart, M.Rings, M.Still, M.Collected, StillPending;
      StillPendingParts(pending, jobs);
      var still, reports := RingFinished(jobs);
      Keep(still, reports);
      assert JobsOf(pending) == M.Still(old(JobsOf(pending)), jobs);
    }

    /** Replace the pending jobs by those still encoding, and note the reports made. */
    method Keep(still: seq<PendingJob>, ghost reports: seq<M.Report>)
      requires Separate() && Apart(still) && rows !in RowLists(still)
      modifies this`pending, this`books
      ensures Valid() && pending == still
      ensures Core() == old(Core()).(books := old(books).(reports := old(books).reports + reports))
    {
      hide Apart, RowLists;
      pending := still;
      books := books.(reports := books.reports + reports);
    }

    method OnTick(p: M.Poll, jobs: seq<M.JobStatus>, now: real)
      requires Valid() && M.PollFits(c, p)
      modifies this, rows
      ensures Valid() && (rows == old(rows) || fresh(rows))
      ensures State() == M.OnTick(c, old(State()), p, jobs, now)
      ensures JobsOf(old(pending)) == old(JobsOf(pending))
    {
      hide Apart, M.Collect, M.CapturePass, M.Limits;
      Collect(jobs);
      if !mode.Recording? {
        return;
      }
      PassIgnoresPending(c, Core(), p, JobsOf(pending));
      Capture(p);
      if !mode.Recording? {
        return;
      }
      CheckLimits(now);
    }

    method CheckLimits(now: real)
      requires Valid() && mode.Recording?
      modifies this
      ensures Valid() && (rows == old(rows) || fresh(rows))
      ensures State() == M.Limits(old(State()), now)
    {
      hide Apart, M.Telemetry, M.Abort, M.SubmitFinalize;
      TellIgnoresPending(Core(), JobsOf(pending));
      Telemetry();
      if now - clockSeen > M.CLOCK_TIMEOUT_S {
        AbortIgnoresPending(Core(), JobsOf(pending));
        Abort();
      } else if |rows.items| >= M.MAX_FRAMES {
        SubmitFinalize();
      }
    }
  }

  /** What a frame that does not wait makes of the recorder. */
  ghost function Judged(c: Config, r: M.Recorder, f: Sample): M.Recorder {
    if Final(FateOf(c, r.e, f)) then r.(e := Consume(c, r.e, f)) else M.Abort(r)
  }

  ghost function Handed(r: M.Recorder): M.Recorder {
    M.DrainVerdicts(r, r.id).(books := r.books.(submitted := r.books.submitted + [M.Submission(M.JobOf(r), r.e)]))
  }

  ghost function AfterHandover(r: M.Recorder): M.Recorder {
    M.Reset(Handed(r)).(mode := M.Idle)
  }

  /** What becomes of a recording when the queue has been consumed as far as it goes. */
  ghost function AfterPump(r: M.Recorder, p: Pumped): M.Recorder {
    match p
    case Going(e) => r.(e := e)
    case Aborted(_) => M.Abort(r)
  }

  lemma AfterPumpIgnores(r: M.Recorder, e: Episode, p: Pumped)
    ensures AfterPump(r.(e := e), p) == AfterPump(r, p)
  {
  }

  lemma PumpUnfolds(c: Config, e: Episode)
    ensures e.deferred == [] ==> Pump(c, e) == Going(e)
    ensures e.deferred != [] && Final(FateOf(c, e, e.deferred[0])) ==>
              Pump(c, e) == Pump(c, Consume(c, e, e.deferred[0]).(deferred := e.deferred[1..]))
  {
  }

  lemma ConsumeKeepsQueue(c: Config, e: Episode, f: Sample)
    ensures Final(FateOf(c, e, f)) ==> Consume(c, e, f).deferred == e.deferred
  {
  }

  function StillPending(pending: seq<PendingJob>, jobs: seq<M.JobStatus>): seq<PendingJob> {
    if pending == [] then [] else
      StillPending(Init(pending), jobs) + if M.StatusOf(jobs, |pending| - 1).Running? then [Last(pending)] else []
  }

  lemma {:induction false} StillPendingParts(pending: seq<PendingJob>, jobs: seq<M.JobStatus>)
    ensures RowLists(StillPending(pending, jobs)) <= RowLists(pending)
    ensures Apart(pending) ==> Apart(StillPending(pending, jobs))
    ensures JobsOf(StillPending(pending, jobs)) == M.Still(JobsOf(pending), jobs)
  {
    hide Apart, RowLists;
    if pending == [] {
      assert StillPending(pending, jobs) == pending;
    } else {
      var front, last := Init(pending), Last(pending);
      var still := StillPending(front, jobs);
      StillPendingParts(front, jobs);
      assert Init(JobsOf(pending)) == JobsOf(front);
      assert pending == front + [last];
      RowListsSnoc(front, last);
      RowListsSnoc(still, last);
      assert JobsOf(still + [last]) == JobsOf(still) + [JobOf(last)];
      assert still + [] == still;
    }
  }

  lemma RowListsSnoc(pending: seq<PendingJob>, p: PendingJob)
    ensures RowLists(pending + [p]) == RowLists(pending) + {p.rows}
    ensures Apart(pending + [p]) <==> Apart(pending) && p.rows !in RowLists(pending)
  {
    if Apart(pending + [p]) {
      assert forall i :: 0 <= i < |pending| ==> (pending + [p])[i] == pending[i];
      assert forall i :: 0 <= i < |pending| ==> (pending + [p])[i].rows != (pending + [p])[|pending|].rows;
    }
    forall x | x in RowLists(pending) + {p.rows}
      ensures x in RowLists(pending + [p])
    {
      if x == p.rows {
        assert (pending + [p])[|pending|] == p;
      } else {
        var i :| 0 <= i < |pending| && pending[i].rows == x;
        assert (pending + [p])[i] == pending[i];
      }
    }
  }

  lemma NoRings()
    ensures M.Rings([]) == []
  {
  }

  lemma RingsSnoc(reports: seq<M.Report>, p: M.Report)
    ensures M.Rings(reports + [p]) == M.Rings(reports) + [M.RingOf(p)]
  {
  }

  // ----- The steps do not look at the pending jobs, and an abort not at the episode ------------

  lemma AbortIdle(r: M.Recorder)
    ensures M.Abort(r).mode.Idle?
  {
  }

  lemma AbortIgnores(r: M.Recorder, e: Episode, seen: real)
    ensures M.Abort(r.(e := e, clockSeen := seen)) == M.Abort(r)
    ensures M.Abort(r.(e := e)) == M.Abort(r)
  {
  }

  lemma PassIgnoresPending(c: Config, r: M.Recorder, p: M.Poll, jobs: seq<M.Job>)
    requires M.PollFits(c, p)
    ensures M.CapturePass(c, r.(pending := jobs), p) == M.CapturePass(c, r, p).(pending := jobs)
  {
  }

  lemma TellIgnoresPending(r: M.Recorder, jobs: seq<M.Job>)
    ensures M.Telemetry(r.(pending := jobs)) == M.Telemetry(r).(pending := jobs)
  {
  }

  lemma AbortIgnoresPending(r: M.Recorder, jobs: seq<M.Job>)
    ensures M.Abort(r.(pending := jobs)) == M.Abort(r).(pending := jobs)
  {
  }

  lemma StartIgnoresPending(c: Config, r: M.Recorder, env: M.Env, jobs: seq<M.Job>)
    ensures M.Start(c, r.(pending := jobs), env) == M.Start(c, r, env).(pending := jobs)
  {
  }

  lemma DiscardIgnoresPending(r: M.Recorder, jobs: seq<M.Job>)
    ensures M.Discard(r.(pending := jobs)) == M.Discard(r).(pending := jobs)
  {
  }

  lemma NoneChosen(id: string)
    ensures M.Chosen([], id) == None && M.Unchosen([], id) == []
  {
  }

  lemma ChosenSnoc(reqs: seq<Request>, r: Request, id: string)
    ensures M.Chosen(reqs + [r], id) ==
            (if M.Chosen(reqs, id) == None && M.Names(r, id) then Some(r) else M.Chosen(reqs, id))
    ensures M.Unchosen(reqs + [r], id) ==
            (if M.Chosen(reqs, id) == None && M.Names(r, id) then M.Unchosen(reqs, id) else M.Unchosen(reqs, id) + [r])
  {
    FirstNamingSnoc(reqs, r, id);
    var k := M.FirstNaming(reqs, id);
    if k < |reqs| {
      assert (reqs + [r])[..k] + (reqs + [r])[k + 1..] == (reqs[..k] + reqs[k + 1..]) + [r];
    } else if M.Names(r, id) {
      assert (reqs + [r])[..k] + (reqs + [r])[k + 1..] == reqs;
    }
  }

  lemma {:induction false} FirstNamingSnoc(reqs: seq<Request>, r: Request, id: string)
    ensures M.FirstNaming(reqs + [r], id) ==
            (if M.FirstNaming(reqs, id) < |reqs| || M.Names(r, id) then M.FirstNaming(reqs, id) else |reqs| + 1)
  {
    if reqs == [] {
      assert [r][1..] == [];
    } else {
      FirstNamingSnoc(reqs[1..], r, id);
      assert (reqs + [r])[1..] == reqs[1..] + [r];
    }
  }
}
