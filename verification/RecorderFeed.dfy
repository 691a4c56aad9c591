/** A recording fed by the queues: the polls of a recorder as what a world of publishers gave it to read. */
module RecorderFeed {
  import opened Basics
  import opened Grid
  import opened CaptureEngine
  import opened Passes
  import opened Schedule
  import opened RecorderModel
  import RecorderRuns
  import opened RecorderHistory
  import Pairing

  /** What one pass read: each source's queue, and the clock's. */
  datatype Reading = Reading(answers: seq<seq<Sample>>, frames: seq<Sample>)

  /** What has been read so far: the finished passes, and the sources drained in the one under way. */
  datatype Log = Log(done: seq<Reading>, open: seq<seq<Sample>>)

  /** The readings of the first j steps. */
  ghost function ReadBy(c: Config, ws: seq<Pairing.World>, steps: seq<Pairing.Step>, j: nat): Log
    requires Pairing.IsRun(c, ws, steps) && j < |ws|
  {
    if j == 0 then Log([], [])
    else
      var before := ReadBy(c, ws, steps, j - 1);
      var w := ws[j - 1];
      assert Pairing.NextRel(c, w, steps[j - 1], ws[j - 1 + 1]);
      match steps[j - 1]
      case DrainSource => Log(before.done, before.open + [w.answerQueues[w.phase]])
      case DrainClock => Log(before.done + [Reading(before.open, w.clockQueue)], [])
      case _ => before
  }

  ghost predicate Reads(p: Poll, reading: Reading) {
    p.answers == reading.answers && p.frames == reading.frames
  }

  ghost predicate AllRead(polls: seq<Poll>, done: seq<Reading>) {
    |polls| == |done| && forall i :: 0 <= i < |polls| ==> Reads(polls[i], done[i])
  }

  /** The world's episode is the replay of what has been read. */
  ghost predicate Follows(c: Config, start: Episode, w: Pairing.World, log: Log, polls: seq<Poll>) {
    && AllFit(c, polls) && Replay(c, start, polls).Going?
    && |log.open| == w.phase <= |c.others| == |w.answerQueues|
    && w.e == RefreshAll(c.others[..w.phase], Replay(c, start, polls).e, log.open)
  }

  lemma FollowsSource(c: Config, start: Episode, w: Pairing.World, log: Log, polls: seq<Poll>)
    requires Follows(c, start, w, log, polls) && w.phase < |c.others|
    ensures Follows(c, start, Pairing.Next(c, w, Pairing.DrainSource),
                    Log(log.done, log.open + [w.answerQueues[w.phase]]), polls)
  {
    hide Replay, Refresh, RefreshAll;
    Pairing.RefreshNext(c.others, w.phase, Replay(c, start, polls).e, log.open, w.answerQueues[w.phase]);
  }

  lemma FollowsClock(c: Config, start: Episode, w: Pairing.World, log: Log, polls: seq<Poll>, p: Poll)
    requires Follows(c, start, w, log, polls) && w.phase == |c.others|
    requires Reads(p, Reading(log.open, w.clockQueue))
    ensures AllFit(c, polls + [p])
    ensures Replay(c, start, polls + [p]) == Pump(c, Enqueue(w.e, w.clockQueue))
  {
    hide Replay, Refresh, RefreshAll, Pump;
    assert c.others[..|c.others|] == c.others;
    ReplaySnoc(c, start, polls, p);
  }

  lemma {:induction false} WorldFollows(c: Config, ws: seq<Pairing.World>, steps: seq<Pairing.Step>, j: nat,
                                        polls: seq<Poll>)
    requires Pairing.IsRun(c, ws, steps) && j < |ws| && AllRead(polls, ReadBy(c, ws, steps, j).done)
    ensures Follows(c, ws[0].e, ws[j], ReadBy(c, ws, steps, j), polls)
  {
    hide Replay, Refresh, RefreshAll, Pump, Pairing.Initial;
    if j == 0 {
      NothingRead(c, ws[0]);
      assert polls == [];
    } else {
      var w, log := ws[j - 1], ReadBy(c, ws, steps, j - 1);
      assert Pairing.NextRel(c, w, steps[j - 1], ws[j - 1 + 1]);
      match steps[j - 1]
      case DrainSource =>
        WorldFollows(c, ws, steps, j - 1, polls);
        FollowsSource(c, ws[0].e, w, log, polls);
      case DrainClock =>
        var front, p := Init(polls), Last(polls);
        assert polls == front + [p];
        WorldFollows(c, ws, steps, j - 1, front);
        FollowsClock(c, ws[0].e, w, log, front, p);
        NothingOpen(c, ws[j].e);
      case _ =>
        WorldFollows(c, ws, steps, j - 1, polls);
    }
  }

  lemma NothingOpen(c: Config, e: Episode)
    ensures RefreshAll(c.others[..0], e, []) == e
  {
  }

  lemma NothingRead(c: Config, w: Pairing.World)
    requires Pairing.Initial(c, w)
    ensures Follows(c, w.e, w, Log([], []), [])
  {
  }

  // ----- What was polled was taken in ---------------------------------------------------------

  lemma {:induction false} RefreshDelivers(others: seq<Source>, e: Episode, answers: seq<seq<Sample>>)
    requires |answers| == |others|
    ensures e.log.delivered <= RefreshAll(others, e, answers).log.delivered
    ensures forall i, x :: 0 <= i < |others| && others[i].paired && x in answers[i] ==>
              (others[i].topic, x) in RefreshAll(others, e, answers).log.delivered
  {
    if others != [] {
      var front := Init(others);
      RefreshDelivers(front, e, Init(answers));
      forall i, x | 0 <= i < |others| && others[i].paired && x in answers[i]
        ensures (others[i].topic, x) in RefreshAll(others, e, answers).log.delivered
      {
        if i < |front| {
          assert front[i] == others[i] && Init(answers)[i] == answers[i];
        }
      }
    }
  }

  lemma CaptureDelivers(c: Config, e: Episode, p: Poll)
    requires PollFits(c, p) && Capture(c, e, p.answers, p.frames).Going?
    ensures var e' := Capture(c, e, p.answers, p.frames).e;
            && e.log.delivered <= e'.log.delivered
            && forall i, x :: 0 <= i < |c.others| && c.others[i].paired && x in p.answers[i] ==>
                 (c.others[i].topic, x) in e'.log.delivered
  {
    hide RefreshAll;
    RefreshDelivers(c.others, e, p.answers);
    PumpShape(c, Enqueue(RefreshAll(c.others, e, p.answers), p.frames));
  }

  /** Every answer a paired source was polled for has been delivered. */
  lemma {:induction false} ReplayDelivers(c: Config, start: Episode, polls: seq<Poll>, p: Poll, i: nat, x: Sample)
    requires AllFit(c, polls) && Replay(c, start, polls).Going?
    requires p in polls && i < |c.others| && c.others[i].paired && i < |p.answers| && x in p.answers[i]
    ensures (c.others[i].topic, x) in Replay(c, start, polls).e.log.delivered
  {
    hide Capture;
    var before := Replay(c, start, Init(polls)).e;
    CaptureDelivers(c, before, Last(polls));
    if p != Last(polls) {
      ReplayDelivers(c, start, Init(polls), p, i, x);
    }
  }

  /** The polls are what the world's passes read, the last one being still to come for the clock. */
  ghost predicate Fed(c: Config, start: Episode, polls: seq<Poll>, ws: seq<Pairing.World>, steps: seq<Pairing.Step>) {
    && Pairing.IsRun(c, ws, steps) && ws[0].e == start && Last(ws).phase == |c.others|
    && polls != []
    && var log := ReadBy(c, ws, steps, |ws| - 1);
       AllRead(Init(polls), log.done) && Reads(Last(polls), Reading(log.open, Last(ws).clockQueue))
  }

  /** What the last state of the world has taken in, for a paired source, is all that was polled. */
  lemma AllDelivered(c: Config, start: Episode, polls: seq<Poll>, ws: seq<Pairing.World>, steps: seq<Pairing.Step>,
                     s: Source, x: Sample)
    requires Fed(c, start, polls, ws, steps) && AllFit(c, polls) && s in c.others && s.paired
    requires Arrived(c, polls, s.topic, x)
    ensures (s.topic, x) in Last(ws).e.log.delivered
  {
    hide Replay, RefreshAll, Pump, ReadBy;
    var w, log, front := Last(ws), ReadBy(c, ws, steps, |ws| - 1), Init(polls);
    WorldFollows(c, ws, steps, |ws| - 1, front);
    assert c.others[..|c.others|] == c.others;
    RefreshDelivers(c.others, Replay(c, start, front).e, log.open);
    var p, i :| p in polls && 0 <= i < |c.others| && i < |p.answers|
      && c.others[i].topic == s.topic && x in p.answers[i];
    SameSource(c, ws[0], s, i);
    if p in front {
      ReplayDelivers(c, start, front, p, i, x);
    } else {
      assert p == Last(polls);
    }
  }

  lemma SameSource(c: Config, w: Pairing.World, s: Source, i: nat)
    requires Pairing.Initial(c, w) && s in c.others && s.paired && i < |c.others| && c.others[i].topic == s.topic
    ensures c.others[i] == s
  {
  }

  /** Some polled clock frame has this id, and some paired source was handed no answer to it. */
  ghost predicate Missing(c: Config, polls: seq<Poll>, fid: nat) {
    && (exists f :: f in ClockOf(polls) && f.fid == fid)
    && exists s :: s in c.others && s.paired && NoAnswer(c, polls, s, fid)
  }

  ghost predicate NoAnswer(c: Config, polls: seq<Poll>, s: Source, fid: nat) {
    forall x :: Arrived(c, polls, s.topic, x) ==> x.fid != fid
  }

  lemma QueuedWasPolled(c: Config, period: nat, t0: int, polls: seq<Poll>, ws: seq<Pairing.World>,
                        steps: seq<Pairing.Step>, f: Sample)
    requires Fed(c, Fresh(period, t0), polls, ws, steps) && AllFit(c, polls)
    requires f in Last(ws).e.deferred || f in Last(ws).clockQueue
    ensures f in ClockOf(polls)
  {
    hide Replay, RefreshAll, Pump, ReadBy, Sound, Arrived;
    var w, log, front := Last(ws), ReadBy(c, ws, steps, |ws| - 1), Init(polls);
    WorldFollows(c, ws, steps, |ws| - 1, front);
    assert c.others[..|c.others|] == c.others;
    ReplaySound(c, period, t0, front);
    var e := Replay(c, Fresh(period, t0), front).e;
    RefreshAllSound(c, c.others, e, log.open);
    SoundConserves(c, e);
  }

  lemma ReplayNeverMatched(c: Config, period: nat, t0: int, polls: seq<Poll>, ws: seq<Pairing.World>,
                           steps: seq<Pairing.Step>, fid: nat)
    requires Fed(c, Fresh(period, t0), polls, ws, steps) && AllFit(c, polls)
    requires Replay(c, Fresh(period, t0), polls) == Aborted(NeverMatched(fid))
    ensures Missing(c, polls, fid)
  {
    hide Replay, RefreshAll, Pump, ReadBy, Arrived, Enqueue;
    var w, front := Last(ws), Init(polls);
    WorldFollows(c, ws, steps, |ws| - 1, front);
    FollowsClock(c, ws[0].e, w, ReadBy(c, ws, steps, |ws| - 1), front, Last(polls));
    assert polls == front + [Last(polls)];
    var i := Pairing.NeverMatchedIsTrue(c, ws, steps, fid);
    var queue := w.e.deferred + w.clockQueue;
    QueuedWasPolled(c, period, t0, polls, ws, steps, queue[i]);
    var s :| s in c.others && s.paired && !Pairing.DeliveredBy(s, w.e, fid);
    forall x | Arrived(c, polls, s.topic, x)
      ensures x.fid != fid
    {
      AllDelivered(c, Fresh(period, t0), polls, ws, steps, s, x);
    }
    assert NoAnswer(c, polls, s, fid);
  }

  /** A recording that a run of the recorder loses because a frame was "never matched" really missed an answer,
      however publishers and passes interleaved: some paired source was handed none for that frame by any poll since
      START. */
  lemma NeverMatchedLossIsTrue(c: Config, rs: seq<Recorder>, evs: seq<Event>, k: nat, m: nat, fid: nat,
                               ws: seq<Pairing.World>, steps: seq<Pairing.Step>)
    requires RecorderRuns.IsRun(c, rs, evs) && m < |evs| && Since(rs, evs, k, m)
    requires EndingOf(c, rs[m], evs[m]) == LostNow(NeverMatched(fid))
    requires Fed(c, FreshBy(c, evs[k].env), PollsOf(evs[k + 1..m + 1]), ws, steps)
    ensures Missing(c, PollsOf(evs[k + 1..m + 1]), fid)
  {
    hide Replay, Capture, ReadBy, EndingOf, RecorderModel.Next, Fed, Missing, PollsOf, RecorderRuns.Admissible;
    var k' := RecordingSince(c, rs, evs, m);
    SinceUnique(rs, evs, k, k', m, m);
    ReplayedTo(c, rs[m], evs[k].env, PollsOf(evs[k + 1..m]), evs[m]);
    PollsOfOne(evs[k + 1..m], evs[m]);
    assert evs[k + 1..m + 1] == evs[k + 1..m] + [evs[m]];
    var env := evs[k].env;
    ReplayNeverMatched(c, PeriodNs(RecordHz(env.requestedHz, c.clock.rateHz)), env.wallNs,
                       PollsOf(evs[k + 1..m + 1]), ws, steps, fid);
  }

  // ----- How far a recording gets -------------------------------------------------------------

  /** Every paired source was handed an answer to this id by some poll. */
  ghost predicate AnsweredBy(c: Config, polls: seq<Poll>, fid: nat) {
    forall s :: s in c.others && s.paired ==> !NoAnswer(c, polls, s, fid)
  }

  /** The position of the first frame some paired source was handed no answer to, or the length if there is none. */
  ghost function FirstUnanswered(c: Config, polls: seq<Poll>, frames: seq<Sample>): (n: nat)
    ensures n <= |frames| && forall i :: 0 <= i < n ==> AnsweredBy(c, polls, frames[i].fid)
    ensures n < |frames| ==> !AnsweredBy(c, polls, frames[n].fid)
  {
    if frames == [] || !AnsweredBy(c, polls, frames[0].fid) then 0 else 1 + FirstUnanswered(c, polls, frames[1..])
  }

  lemma FirstUnansweredIs(c: Config, polls: seq<Poll>, frames: seq<Sample>, n: nat)
    requires n <= |frames| && forall i :: 0 <= i < n ==> AnsweredBy(c, polls, frames[i].fid)
    requires n < |frames| ==> !AnsweredBy(c, polls, frames[n].fid)
    ensures FirstUnanswered(c, polls, frames) == n
  {
    hide AnsweredBy;
  }

  /** Every consumed frame had its answers delivered. */
  ghost predicate ConsumedDelivered(c: Config, e: Episode) {
    forall f :: f in Frames(e.log.consumed) ==> Pairing.Delivered(c, e, f.fid)
  }

  lemma DeliveredMore(c: Config, e: Episode, e': Episode, fid: nat)
    requires Pairing.Delivered(c, e, fid) && e.log.delivered <= e'.log.delivered
    ensures Pairing.Delivered(c, e', fid)
  {
    forall s | s in c.others && s.paired
      ensures Pairing.DeliveredBy(s, e', fid)
    {
      assert Pairing.DeliveredBy(s, e, fid);
    }
  }

  lemma MatchedDelivered(c: Config, e: Episode, f: Sample)
    requires CachesSound(e) && Matched(c, e, f)
    ensures Pairing.Delivered(c, e, f.fid)
  {
    forall s | s in c.others && s.paired
      ensures Pairing.DeliveredBy(s, e, f.fid)
    {
      assert Answered(s, e, f.fid);
      assert (s.topic, e.pairs[s.topic][f.fid]) in e.log.delivered;
    }
  }

  lemma CaptureConsumes(c: Config, e: Episode, p: Poll)
    requires PollFits(c, p) && Sound(c, e) && ConsumedDelivered(c, e)
    requires Capture(c, e, p.answers, p.frames).Going?
    ensures ConsumedDelivered(c, Capture(c, e, p.answers, p.frames).e)
  {
    hide Sound, Pump, RefreshAll, Matched, Pairing.Delivered;
    RefreshAllSound(c, c.others, e, p.answers);
    var refreshed := RefreshAll(c.others, e, p.answers);
    EnqueueSound(c, refreshed, p.frames);
    var full := Enqueue(refreshed, p.frames);
    PassGoesOnIff(c, full);
    PumpShape(c, full);
    Pairing.SoundCaches(c, full);
    var e' := Pump(c, full).e;
    forall f | f in Frames(e'.log.consumed)
      ensures Pairing.Delivered(c, e', f.fid)
    {
      if f in Frames(e.log.consumed) {
        DeliveredMore(c, e, e', f.fid);
      } else {
        assert f in full.deferred[..Answerable(c, full, full.deferred)];
        MatchedDelivered(c, full, f);
        DeliveredMore(c, full, e', f.fid);
      }
    }
  }

  lemma {:induction false} ReplayConsumes(c: Config, period: nat, t0: int, polls: seq<Poll>)
    requires AllFit(c, polls) && Replay(c, Fresh(period, t0), polls).Going?
    ensures ConsumedDelivered(c, Replay(c, Fresh(period, t0), polls).e)
  {
    hide Capture, Sound, Pairing.Delivered, Arrived;
    if polls != [] {
      ReplayConsumes(c, period, t0, Init(polls));
      ReplaySound(c, period, t0, Init(polls));
      CaptureConsumes(c, Replay(c, Fresh(period, t0), Init(polls)).e, Last(polls));
    }
  }

  lemma DeliveredWasAnswered(c: Config, period: nat, t0: int, polls: seq<Poll>, fid: nat)
    requires AllFit(c, polls) && Replay(c, Fresh(period, t0), polls).Going?
    requires Pairing.Delivered(c, Replay(c, Fresh(period, t0), polls).e, fid)
    ensures AnsweredBy(c, polls, fid)
  {
    hide Replay, Sound, Arrived;
    ReplaySound(c, period, t0, polls);
    var e := Replay(c, Fresh(period, t0), polls).e;
    forall s | s in c.others && s.paired
      ensures !NoAnswer(c, polls, s, fid)
    {
      assert Pairing.DeliveredBy(s, e, fid);
      var x :| (s.topic, x) in e.log.delivered && x.fid == fid;
      assert Arrived(c, polls, s.topic, x);
    }
  }

  /** What a pass that goes on leaves at the head of its queue lacks an answer that no poll gave. */
  lemma HeadIsUnanswered(c: Config, period: nat, t0: int, polls: seq<Poll>, ws: seq<Pairing.World>,
                         steps: seq<Pairing.Step>)
    requires Fed(c, Fresh(period, t0), polls, ws, steps) && AllFit(c, polls)
    requires Replay(c, Fresh(period, t0), polls).Going?
    ensures var left := Replay(c, Fresh(period, t0), polls).e.deferred;
            left != [] ==> !AnsweredBy(c, polls, left[0].fid)
  {
    hide Replay, RefreshAll, Pump, ReadBy, Arrived, Sound, Matched, Pairing.Inv, Pairing.Delivered;
    var w, front := Last(ws), Init(polls);
    WorldFollows(c, ws, steps, |ws| - 1, front);
    FollowsClock(c, ws[0].e, w, ReadBy(c, ws, steps, |ws| - 1), front, Last(polls));
    assert polls == front + [Last(polls)];
    Pairing.RunInv(c, ws, steps, |ws| - 1);
    Pairing.WorldSound(c, ws, steps, |ws| - 1);
    Pairing.SoundCaches(c, w.e);
    var full := Enqueue(w.e, w.clockQueue);
    EnqueueSound(c, w.e, w.clockQueue);
    PassGoesOnIff(c, full);
    var i := Answerable(c, full, full.deferred);
    if i < |full.deferred| {
      var f := full.deferred[i];
      MatchedDepends(c, w.e, full, f);
      Pairing.MatchedIffDelivered(c, w, f);
      UndeliveredIsUnanswered(c, Fresh(period, t0), polls, ws, steps, f.fid);
    }
  }

  lemma UndeliveredIsUnanswered(c: Config, start: Episode, polls: seq<Poll>, ws: seq<Pairing.World>,
                                steps: seq<Pairing.Step>, fid: nat)
    requires Fed(c, start, polls, ws, steps) && AllFit(c, polls) && !Pairing.Delivered(c, Last(ws).e, fid)
    ensures !AnsweredBy(c, polls, fid)
  {
    hide Arrived, ReadBy;
    var s :| s in c.others && s.paired && !Pairing.DeliveredBy(s, Last(ws).e, fid);
    forall x | Arrived(c, polls, s.topic, x)
      ensures x.fid != fid
    {
      AllDelivered(c, start, polls, ws, steps, s, x);
    }
    assert NoAnswer(c, polls, s, fid);
  }

  /** A replay of fed polls has consumed exactly the clock frames in front of the first that misses an answer. */
  lemma ReplayGetsTo(c: Config, period: nat, t0: int, polls: seq<Poll>, ws: seq<Pairing.World>,
                     steps: seq<Pairing.Step>)
    requires Fed(c, Fresh(period, t0), polls, ws, steps) && AllFit(c, polls)
    requires Replay(c, Fresh(period, t0), polls).Going?
    ensures var e := Replay(c, Fresh(period, t0), polls).e; var clock := ClockOf(polls);
            && Sound(c, e) && e.period == period && e.t0 == t0
            && (forall t, x :: (t, x) in e.log.delivered ==> Arrived(c, polls, t, x))
            && Frames(e.log.consumed) == clock[..FirstUnanswered(c, polls, clock)]
  {
    hide Replay, Arrived, Sound, Fed, Pairing.Delivered, AnsweredBy;
    var e, clock := Replay(c, Fresh(period, t0), polls).e, ClockOf(polls);
    ReplaySound(c, period, t0, polls);
    SoundConserves(c, e);
    ReplayConsumes(c, period, t0, polls);
    HeadIsUnanswered(c, period, t0, polls, ws, steps);
    var n := |e.log.consumed|;
    forall i | 0 <= i < n
      ensures AnsweredBy(c, polls, clock[i].fid)
    {
      assert clock[i] == Frames(e.log.consumed)[i];
      DeliveredWasAnswered(c, period, t0, polls, clock[i].fid);
    }
    FirstUnansweredIs(c, polls, clock, n);
    assert clock[..n] == Frames(e.log.consumed);
  }

  /** A submitted episode, exactly: with only paired sources and one answer per id, its rows are the one-pass rows of
      the clock frames polled since START in front of the first that some source was handed no answer to. */
  lemma SubmissionGetsTo(c: Config, rs: seq<Recorder>, evs: seq<Event>, s: Submission, k: nat, m: nat,
                         answer: (Topic, nat) -> Sample, ws: seq<Pairing.World>, steps: seq<Pairing.Step>)
    requires RecordedBy(c, rs, evs, s, k, m) && AllPaired(c)
    requires var polls := PollsOf(evs[k + 1..m + 1]);
             AnswersAre(c, polls, answer) && Fed(c, FreshBy(c, evs[k].env), polls, ws, steps)
    ensures var env := evs[k].env; var polls := PollsOf(evs[k + 1..m + 1]); var clock := ClockOf(polls);
            var period := PeriodNs(RecordHz(env.requestedHz, c.clock.rateHz));
            s.job.rows == OnePass(c, answer, period, env.wallNs, clock[..FirstUnanswered(c, polls, clock)])
  {
    hide Replay, Arrived, Sound, Fed, AnsweredBy, OnePass, FirstUnanswered;
    var env, polls := evs[k].env, PollsOf(evs[k + 1..m + 1]);
    ReplayGetsTo(c, PeriodNs(RecordHz(env.requestedHz, c.clock.rateHz)), env.wallNs, polls, ws, steps);
    RowsAreOnePass(c, s.e, answer);
  }

  /** What a recording is made of: START's rate and fence, the clock frames polled since, and which of them every
      paired source was handed an answer to. */
  ghost predicate SameInputs(c: Config, env1: Env, polls1: seq<Poll>, env2: Env, polls2: seq<Poll>) {
    && RecordHz(env1.requestedHz, c.clock.rateHz) == RecordHz(env2.requestedHz, c.clock.rateHz)
    && env1.wallNs == env2.wallNs && ClockOf(polls1) == ClockOf(polls2)
    && forall fid :: AnsweredBy(c, polls1, fid) <==> AnsweredBy(c, polls2, fid)
  }

  /** So two submitted episodes made of the same have equal rows, however their polls, ticks and publishers were
      interleaved. */
  lemma SameInputsSameRows(c: Config, answer: (Topic, nat) -> Sample,
                           rs1: seq<Recorder>, evs1: seq<Event>, s1: Submission, k1: nat, m1: nat,
                           ws1: seq<Pairing.World>, steps1: seq<Pairing.Step>,
                           rs2: seq<Recorder>, evs2: seq<Event>, s2: Submission, k2: nat, m2: nat,
                           ws2: seq<Pairing.World>, steps2: seq<Pairing.Step>)
    requires AllPaired(c) && RecordedBy(c, rs1, evs1, s1, k1, m1) && RecordedBy(c, rs2, evs2, s2, k2, m2)
    requires var polls1, polls2 := PollsOf(evs1[k1 + 1..m1 + 1]), PollsOf(evs2[k2 + 1..m2 + 1]);
             && AnswersAre(c, polls1, answer) && Fed(c, FreshBy(c, evs1[k1].env), polls1, ws1, steps1)
             && AnswersAre(c, polls2, answer) && Fed(c, FreshBy(c, evs2[k2].env), polls2, ws2, steps2)
             && SameInputs(c, evs1[k1].env, polls1, evs2[k2].env, polls2)
    ensures s1.job.rows == s2.job.rows
  {
    hide Replay, Fed, AnsweredBy, OnePass, AnswersAre;
    SubmissionGetsTo(c, rs1, evs1, s1, k1, m1, answer, ws1, steps1);
    SubmissionGetsTo(c, rs2, evs2, s2, k2, m2, answer, ws2, steps2);
    var polls1, polls2 := PollsOf(evs1[k1 + 1..m1 + 1]), PollsOf(evs2[k2 + 1..m2 + 1]);
    FirstUnansweredIs(c, polls2, ClockOf(polls2), FirstUnanswered(c, polls1, ClockOf(polls1)));
  }
}
