/** When a pass goes on, and when and why it ends the episode.

    A pass is its answerable head, then what is left waiting. The head alone decides whether the
    clock stepped back or a source went stale; the number left waiting decides the rest. */
module Passes {
  import opened Basics
  import opened Grid
  import opened CaptureEngine

  /** How many frames from the head of the queue have all their answers. */
  function Answerable(c: Config, e: Episode, frames: seq<Sample>): (m: nat)
    ensures m <= |frames|
    ensures forall i :: 0 <= i < m ==> Matched(c, e, frames[i])
    ensures m < |frames| ==> !Matched(c, e, frames[m])
  {
    if frames == [] || !Matched(c, e, frames[0]) then 0 else 1 + Answerable(c, e, frames[1..])
  }

  /** The answerable frames are those in front of the first for which some paired source holds no answer. */
  lemma AnswerableMeans(c: Config, e: Episode, frames: seq<Sample>)
    ensures var m := Answerable(c, e, frames);
            && (forall i :: 0 <= i < m ==> HasAnswers(c, e, frames[i].fid))
            && (m < |frames| ==> !HasAnswers(c, e, frames[m].fid))
  {
    hide Matched, HasAnswers;
    forall f | f in frames
      ensures Matched(c, e, f) <==> HasAnswers(c, e, f.fid)
    {
      MatchedIs(c, e, f);
    }
  }

  function With(e: Episode, queue: seq<Sample>): Episode {
    e.(deferred := queue)
  }

  ghost predicate AllMatched(c: Config, e: Episode, frames: seq<Sample>) {
    forall f :: f in frames ==> Matched(c, e, f)
  }

  /** A frame's fate depends on neither the queue behind it nor the ledger. */
  lemma QueueIrrelevant(c: Config, e: Episode, queue: seq<Sample>, f: Sample)
    ensures Matched(c, With(e, queue), f) == Matched(c, e, f)
    ensures FateOf(c, With(e, queue), f) == FateOf(c, e, f)
    ensures Final(FateOf(c, e, f)) ==> With(Consume(c, With(e, queue), f), queue) == With(Consume(c, e, f), queue)
  {
    assert forall s :: s in c.others ==> (Answered(s, With(e, queue), f.fid) <==> Answered(s, e, f.fid));
    assert forall s :: s in c.others ==> (InWindow(s, With(e, queue), f.ts) <==> InWindow(s, e, f.ts));
    if Matched(c, e, f) && AllInWindow(c, e, f.ts) {
      assert Picks(c, With(e, queue), f) == Picks(c, e, f);
    }
  }

  lemma ConsumeKeepsCaches(c: Config, e: Episode, f: Sample)
    requires Final(FateOf(c, e, f))
    ensures var e' := Consume(c, e, f); e'.pairs == e.pairs && e'.cache == e.cache && e'.t0 == e.t0
  {
  }

  lemma MatchedDepends(c: Config, e: Episode, e': Episode, f: Sample)
    requires e'.pairs == e.pairs
    ensures Matched(c, e', f) == Matched(c, e, f)
  {
    assert forall s :: s in c.others ==> (Answered(s, e', f.fid) <==> Answered(s, e, f.fid));
  }

  /** Consuming the head of a queue. */
  lemma PumpHead(c: Config, e: Episode, f: Sample, rest: seq<Sample>)
    requires Matched(c, e, f)
    ensures var fate := FateOf(c, e, f);
            && (Final(fate) ==> Pump(c, With(e, [f] + rest)) == Pump(c, With(Consume(c, e, f), rest)))
            && (fate.Backwards? ==> Pump(c, With(e, [f] + rest)) == Aborted(ClockBackwards))
            && (fate.Stale? ==> Pump(c, With(e, [f] + rest)) == Aborted(SourceStale))
            && (Final(fate) || fate.Backwards? || fate.Stale?)
  {
    var queue := [f] + rest;
    QueueIrrelevant(c, e, queue, f);
    assert queue[0] == f && queue[1..] == rest;
    if Final(FateOf(c, e, f)) {
      assert With(With(Consume(c, With(e, queue), f), queue), rest) == With(With(Consume(c, e, f), queue), rest);
    }
  }

  /** Passes compose: with an answered queue first, what comes behind it meets the episode that queue leaves, if
      it leaves one; and an answered queue is never an abort for a missing answer. */
  lemma {:induction false} PumpAppend(c: Config, e: Episode, more: seq<Sample>)
    requires AllMatched(c, e, e.deferred)
    ensures match Pump(c, e)
            case Going(e') => e' == With(e', []) && e'.pairs == e.pairs && e'.cache == e.cache && e'.t0 == e.t0
                              && Pump(c, With(e, e.deferred + more)) == Pump(c, With(e', more))
            case Aborted(why) => !why.NeverMatched? && Pump(c, With(e, e.deferred + more)) == Aborted(why)
    decreases |e.deferred|
  {
    hide FateOf, Consume, Matched;
    if e.deferred == [] {
      assert [] + more == more && With(e, []) == e;
    } else {
      var f, rest := e.deferred[0], e.deferred[1..];
      assert e.deferred == [f] + rest && e == With(e, [f] + rest);
      assert e.deferred + more == [f] + (rest + more);
      PumpHead(c, e, f, rest);
      PumpHead(c, e, f, rest + more);
      if Final(FateOf(c, e, f)) {
        ConsumeKeepsCaches(c, e, f);
        var next := With(Consume(c, e, f), rest);
        forall g | g in rest
          ensures Matched(c, next, g)
        {
          MatchedDepends(c, e, next, g);
        }
        PumpAppend(c, next, more);
        assert With(next, rest + more) == With(Consume(c, e, f), rest + more);
      }
    }
  }

  lemma PumpUnmatched(c: Config, e: Episode)
    requires e.deferred != [] ==> !Matched(c, e, e.deferred[0])
    ensures Pump(c, e) == if |e.deferred| > CLOCK_BUFFER then Aborted(NeverMatched(e.deferred[0].fid)) else Going(e)
  {
  }

  /** What any pass does: as its answerable head does; and if that goes on, it ends the episode exactly if more
      than a queue's worth is left waiting. */
  lemma PassSplits(c: Config, e: Episode)
    ensures var m := Answerable(c, e, e.deferred); var head := Pump(c, With(e, e.deferred[..m]));
            Pump(c, e) ==
            match head
            case Aborted(why) => Aborted(why)
            case Going(h) =>
              if |e.deferred| - m > CLOCK_BUFFER then Aborted(NeverMatched(e.deferred[m].fid))
              else Going(With(h, e.deferred[m..]))
  {
    hide Matched, Pump;
    var m := Answerable(c, e, e.deferred);
    var a, w := e.deferred[..m], e.deferred[m..];
    forall f | f in a
      ensures Matched(c, With(e, a), f)
    {
      MatchedDepends(c, e, With(e, a), f);
    }
    PumpAppend(c, With(e, a), w);
    assert a + w == e.deferred && With(With(e, a), a + w) == e;
    if Pump(c, With(e, a)).Going? {
      var h := With(Pump(c, With(e, a)).e, w);
      if w != [] {
        MatchedDepends(c, e, h, w[0]);
      }
      PumpUnmatched(c, h);
    }
  }

  /** The "never matched" abort, exactly: the frames that have all their answers, from the head of the queue, pass;
      and more than a queue's worth is left behind the first that has not. */
  lemma NeverMatchedIff(c: Config, e: Episode, fid: nat)
    ensures var m := Answerable(c, e, e.deferred);
            Pump(c, e) == Aborted(NeverMatched(fid)) <==>
            && Pump(c, With(e, e.deferred[..m])).Going?
            && |e.deferred| - m > CLOCK_BUFFER && e.deferred[m].fid == fid
  {
    hide Pump, Matched;
    PassSplits(c, e);
    var m := Answerable(c, e, e.deferred);
    var a := e.deferred[..m];
    forall f | f in a
      ensures Matched(c, With(e, a), f)
    {
      MatchedDepends(c, e, With(e, a), f);
    }
    PumpAppend(c, With(e, a), []);
  }

  // ----- Which heads go on --------------------------------------------------------------------

  /** The frames past the fence that the episode has consumed. */
  function Past(e: Episode): seq<Sample> {
    NotBefore(e.t0, Frames(e.log.consumed))
  }

  ghost predicate OnGrid(e: Episode) {
    e.nextDue == Cursor(e.period, Past(e))
  }

  /** Past the fence, no stamp steps back. */
  ghost predicate NoStepBack(last: int, live: seq<Sample>) {
    Ordered(live) && forall f :: f in live ==> last <= f.ts
  }

  /** The frames among `frames` that the grid will keep. */
  function NextKept(e: Episode, frames: seq<Sample>): seq<Sample> {
    KeptGrows(e.period, Past(e), NotBefore(e.t0, frames));
    Kept(e.period, Past(e) + NotBefore(e.t0, frames))[|Kept(e.period, Past(e))|..]
  }

  /** A row is there, or one of the first j kept frames becomes one. */
  ghost predicate Begun(c: Config, e: Episode, kept: seq<Sample>, j: nat)
    requires j <= |kept|
  {
    e.rows != [] || exists i :: 0 <= i < j && InTolerance(c, e, kept[i].ts)
  }

  /** Once there is a row, every kept frame is in every source's window. */
  ghost predicate NoneStale(c: Config, e: Episode, kept: seq<Sample>) {
    forall j :: 0 <= j < |kept| && Begun(c, e, kept, j) ==> InTolerance(c, e, kept[j].ts)
  }

  lemma NotBeforeConcat(t0: int, a: seq<Sample>, f: Sample)
    ensures NotBefore(t0, a + [f]) == NotBefore(t0, a) + if f.ts < t0 then [] else [f]
  {
    SnocParts(a, f);
  }

  lemma {:induction false} KeptGrows(period: int, a: seq<Sample>, b: seq<Sample>)
    ensures Kept(period, a) <= Kept(period, a + b)
  {
    KeptOfPrefix(period, a + b, |a|);
    assert (a + b)[..|a|] == a;
  }

  lemma NextKeptSnoc(e: Episode, frames: seq<Sample>, f: Sample)
    ensures var live := Past(e) + NotBefore(e.t0, frames);
            NextKept(e, frames + [f]) ==
            NextKept(e, frames) + if f.ts >= e.t0 && Gate(f.ts, Cursor(e.period, live), e.period).keep then [f] else []
  {
    hide Kept, Cursor, NotBefore, Past;
    var past, live := Past(e), NotBefore(e.t0, frames);
    KeptGrows(e.period, past, live);
    NotBeforeConcat(e.t0, frames, f);
    if f.ts >= e.t0 {
      KeptSnoc(e.period, past + live, f);
      assert past + (live + [f]) == (past + live) + [f];
    } else {
      assert past + (live + []) == past + live;
    }
  }

  lemma NoneStaleSnoc(c: Config, e: Episode, kept: seq<Sample>, f: Sample)
    ensures NoneStale(c, e, kept + [f]) <==>
            NoneStale(c, e, kept) && (Begun(c, e, kept, |kept|) ==> InTolerance(c, e, f.ts))
    ensures Begun(c, e, kept + [f], |kept| + 1) <==> Begun(c, e, kept, |kept|) || InTolerance(c, e, f.ts)
  {
    hide InTolerance;
    var more := kept + [f];
    forall j | 0 <= j <= |kept|
      ensures Begun(c, e, more, j) <==> Begun(c, e, kept, j)
    {
      assert forall i :: 0 <= i < j ==> more[i] == kept[i];
    }
    assert more[|kept|] == f;
    if NoneStale(c, e, more) {
      assert Begun(c, e, kept, |kept|) ==> InTolerance(c, e, more[|kept|].ts);
      forall j | 0 <= j < |kept| && Begun(c, e, kept, j)
        ensures InTolerance(c, e, kept[j].ts)
      {
        assert more[j] == kept[j];
      }
    }
  }

  lemma NoStepBackSnoc(last: int, live: seq<Sample>, f: Sample)
    ensures NoStepBack(last, live + [f]) <==>
            NoStepBack(last, live) && (if live == [] then last else Last(live).ts) <= f.ts
  {
    var more := live + [f];
    if NoStepBack(last, more) {
      assert more[|live|] == f;
      assert f in more;
      forall g | g in live
        ensures last <= g.ts
      {
        assert g in more;
      }
      forall i, j | 0 <= i < j < |live|
        ensures live[i].ts <= live[j].ts
      {
        assert more[i].ts <= more[j].ts;
      }
      if live != [] {
        assert more[|live| - 1].ts <= more[|live|].ts;
      }
    }
    if NoStepBack(last, live) && (if live == [] then last else Last(live).ts) <= f.ts {
      OrderedSnoc(live, f);
      assert live != [] ==> Last(live) in live;
    }
  }

  /** What an answered stretch of frames leaves, if it passes. */
  ghost predicate Passed(c: Config, e: Episode, frames: seq<Sample>, h: Episode) {
    var live := NotBefore(e.t0, frames);
    var kept := NextKept(e, frames);
    && h.deferred == [] && h.pairs == e.pairs && h.cache == e.cache && h.t0 == e.t0 && h.period == e.period
    && Frames(h.log.consumed) == Frames(e.log.consumed) + frames
    && h.lastTs == (if live == [] then e.lastTs else Last(live).ts)
    && h.nextDue == Cursor(e.period, Past(e) + live)
    && (h.rows != [] <==> Begun(c, e, kept, |kept|))
  }

  /** The fate of a frame that follows a stretch that passed. */
  lemma NextFate(c: Config, e: Episode, frames: seq<Sample>, h: Episode, f: Sample)
    requires Passed(c, e, frames, h) && Matched(c, e, f)
    ensures var live := NotBefore(e.t0, frames); var kept := NextKept(e, frames); var fate := FateOf(c, h, f);
            var due := Gate(f.ts, Cursor(e.period, Past(e) + live), e.period).keep;
            Final(fate) <==> f.ts < e.t0 || ((if live == [] then e.lastTs else Last(live).ts) <= f.ts
                                             && (due && Begun(c, e, kept, |kept|) ==> InTolerance(c, e, f.ts)))
  {
    hide Cursor, NotBefore, NextKept, Past, Begun, Matched, InTolerance;
    WindowIs(c, e, f.ts);
    MatchedDepends(c, e, h, f);
    assert forall s :: s in c.others ==> (InWindow(s, h, f.ts) <==> InWindow(s, e, f.ts));
  }

  lemma NextPassed(c: Config, e: Episode, frames: seq<Sample>, h: Episode, f: Sample)
    requires Passed(c, e, frames, h) && Final(FateOf(c, h, f))
    ensures Passed(c, e, frames + [f], With(Consume(c, h, f), []))
  {
    hide Cursor, NotBefore, NextKept, Past, Kept, NoneStale, Matched, AllInWindow, InTolerance;
    WindowIs(c, e, f.ts);
    var live := NotBefore(e.t0, frames);
    assert AllInWindow(c, h, f.ts) == AllInWindow(c, e, f.ts) by { WindowDepends(c, e, h, f.ts); }
    NotBeforeConcat(e.t0, frames, f);
    NextKeptSnoc(e, frames, f);
    NoneStaleSnoc(c, e, NextKept(e, frames), f);
    KeptSnoc(e.period, Past(e) + live, f);
    assert Past(e) + (live + [f]) == (Past(e) + live) + [f] && live + [] == live;
    assert NextKept(e, frames) + [] == NextKept(e, frames);
    LogSnoc(h.log.consumed, Entry(f, FateOf(c, h, f)), e.t0);
    Assoc(Frames(e.log.consumed), frames, [f]);
  }

  lemma WindowDepends(c: Config, e: Episode, h: Episode, ts: int)
    requires h.cache == e.cache
    ensures AllInWindow(c, h, ts) == AllInWindow(c, e, ts)
  {
    assert forall s :: s in c.others ==> (InWindow(s, h, ts) <==> InWindow(s, e, ts));
  }

  /** A stretch of answered frames passes exactly if, past the fence, its stamps never step back and, once there is
      a row, each frame the grid keeps is in every source's window. */
  lemma {:induction false} HeadGoesOn(c: Config, e: Episode, frames: seq<Sample>)
    requires OnGrid(e) && AllMatched(c, e, frames)
    ensures Pump(c, With(e, frames)).Going? <==>
            NoStepBack(e.lastTs, NotBefore(e.t0, frames)) && NoneStale(c, e, NextKept(e, frames))
    ensures Pump(c, With(e, frames)).Going? ==> Passed(c, e, frames, Pump(c, With(e, frames)).e)
  {
    hide FateOf, Consume, Matched, NoneStale, NoStepBack, NextKept, NotBefore, AllInWindow, InTolerance, Begun;
    if frames == [] {
      NothingPassed(c, e);
    } else {
      var front, f := Init(frames), Last(frames);
      assert frames == front + [f];
      HeadGoesOn(c, e, front);
      forall g | g in front
        ensures Matched(c, With(e, front), g)
      {
        MatchedDepends(c, e, With(e, front), g);
      }
      PumpAppend(c, With(e, front), [f]);
      assert With(With(e, front), front + [f]) == With(e, frames);
      StretchSnoc(c, e, front, f);
      if Pump(c, With(e, front)).Going? {
        var h := Pump(c, With(e, front)).e;
        NextFate(c, e, front, h, f);
        MatchedDepends(c, e, h, f);
        PumpHead(c, h, f, []);
        assert [f] + [] == [f];
        if Final(FateOf(c, h, f)) {
          NextPassed(c, e, front, h, f);
        }
      }
    }
  }

  lemma NothingPassed(c: Config, e: Episode)
    requires OnGrid(e)
    ensures Pump(c, With(e, [])) == Going(With(e, [])) && Passed(c, e, [], With(e, []))
    ensures NoStepBack(e.lastTs, NotBefore(e.t0, [])) && NoneStale(c, e, NextKept(e, []))
  {
    assert Past(e) + [] == Past(e) && Frames(e.log.consumed) + [] == Frames(e.log.consumed);
    assert NextKept(e, []) == [];
  }

  /** How the conditions on a stretch change with one more frame. */
  lemma StretchSnoc(c: Config, e: Episode, front: seq<Sample>, f: Sample)
    ensures var live := NotBefore(e.t0, front); var kept := NextKept(e, front);
            var due := Gate(f.ts, Cursor(e.period, Past(e) + live), e.period).keep;
            var frames := front + [f];
            && (NoStepBack(e.lastTs, NotBefore(e.t0, frames)) <==>
                  NoStepBack(e.lastTs, live)
                  && (f.ts >= e.t0 ==> (if live == [] then e.lastTs else Last(live).ts) <= f.ts))
            && (NoneStale(c, e, NextKept(e, frames)) <==>
                  NoneStale(c, e, kept)
                  && (f.ts >= e.t0 && due && Begun(c, e, kept, |kept|) ==> InTolerance(c, e, f.ts)))
  {
    hide NoneStale, NoStepBack, NextKept, NotBefore, AllInWindow, InTolerance, Begun, Cursor, Past;
    var live, kept := NotBefore(e.t0, front), NextKept(e, front);
    NotBeforeConcat(e.t0, front, f);
    NextKeptSnoc(e, front, f);
    NoStepBackSnoc(e.lastTs, live, f);
    NoneStaleSnoc(c, e, kept, f);
    assert live + [] == live && kept + [] == kept;
  }

  /** Nothing in this stretch steps back or finds a source stale. */
  ghost predicate Flows(c: Config, e: Episode, frames: seq<Sample>) {
    NoStepBack(e.lastTs, NotBefore(e.t0, frames)) && NoneStale(c, e, NextKept(e, frames))
  }

  /** Frame n is where the clock first steps back past the fence, nothing before it being wrong. */
  ghost predicate BackwardsAt(c: Config, e: Episode, frames: seq<Sample>, n: int) {
    && 0 <= n < |frames| && Flows(c, e, frames[..n])
    && !NoStepBack(e.lastTs, NotBefore(e.t0, frames[..n + 1]))
  }

  /** Frame n is where a source is first found stale, nothing before it being wrong nor the clock itself. */
  ghost predicate StaleAt(c: Config, e: Episode, frames: seq<Sample>, n: int) {
    && 0 <= n < |frames| && Flows(c, e, frames[..n])
    && NoStepBack(e.lastTs, NotBefore(e.t0, frames[..n + 1])) && !NoneStale(c, e, NextKept(e, frames[..n + 1]))
  }

  lemma NextReason(c: Config, e: Episode, frames: seq<Sample>, h: Episode, f: Sample)
    requires Passed(c, e, frames, h) && Matched(c, e, f)
    ensures var live := NotBefore(e.t0, frames);
            FateOf(c, h, f).Backwards? <==> f.ts >= e.t0 && f.ts < (if live == [] then e.lastTs else Last(live).ts)
  {
    hide Cursor, NotBefore, NextKept, Past, Begun, Matched;
    MatchedDepends(c, e, h, f);
  }

  lemma AtSnoc(c: Config, e: Episode, front: seq<Sample>, f: Sample, n: int)
    requires n < |front|
    ensures BackwardsAt(c, e, front + [f], n) == BackwardsAt(c, e, front, n)
    ensures StaleAt(c, e, front + [f], n) == StaleAt(c, e, front, n)
  {
    hide Flows, NoStepBack, NoneStale, NotBefore, NextKept;
    if 0 <= n {
      assert (front + [f])[..n] == front[..n] && (front + [f])[..n + 1] == front[..n + 1];
    }
  }

  /** Why a stretch of answered frames ends the episode: because of its first frame that steps back or finds a source
      stale; a frame that does both counts as stepping back. */
  lemma {:induction false} HeadEnds(c: Config, e: Episode, frames: seq<Sample>)
    requires OnGrid(e) && AllMatched(c, e, frames)
    ensures Pump(c, With(e, frames)) == Aborted(ClockBackwards) <==> exists n :: BackwardsAt(c, e, frames, n)
    ensures Pump(c, With(e, frames)) == Aborted(SourceStale) <==> exists n :: StaleAt(c, e, frames, n)
  {
    hide FateOf, Consume, Matched, NoneStale, NoStepBack, NextKept, NotBefore, AllInWindow, InTolerance, Begun;
    if frames == [] {
      NothingPassed(c, e);
    } else {
      var front, f := Init(frames), Last(frames);
      var last := |front|;
      assert frames == front + [f] && frames[..last] == front && frames[..last + 1] == frames;
      HeadEnds(c, e, front);
      HeadGoesOn(c, e, front);
      forall g | g in front
        ensures Matched(c, With(e, front), g)
      {
        MatchedDepends(c, e, With(e, front), g);
      }
      PumpAppend(c, With(e, front), [f]);
      assert With(With(e, front), front + [f]) == With(e, frames);
      StretchSnoc(c, e, front, f);
      forall n | n < last
        ensures BackwardsAt(c, e, frames, n) == BackwardsAt(c, e, front, n)
        ensures StaleAt(c, e, frames, n) == StaleAt(c, e, front, n)
      {
        AtSnoc(c, e, front, f, n);
      }
      if Pump(c, With(e, front)).Going? {
        var h := Pump(c, With(e, front)).e;
        NextFate(c, e, front, h, f);
        NextReason(c, e, front, h, f);
        MatchedDepends(c, e, h, f);
        PumpHead(c, h, f, []);
        assert [f] + [] == [f];
        LastReason(c, e, frames, h, f);
      }
    }
  }

  lemma LastReason(c: Config, e: Episode, frames: seq<Sample>, h: Episode, f: Sample)
    requires frames != [] && f == Last(frames) && Flows(c, e, Init(frames))
    ensures BackwardsAt(c, e, frames, |frames| - 1) <==> !NoStepBack(e.lastTs, NotBefore(e.t0, frames))
    ensures StaleAt(c, e, frames, |frames| - 1) <==>
            NoStepBack(e.lastTs, NotBefore(e.t0, frames)) && !NoneStale(c, e, NextKept(e, frames))
  {
    hide Flows, NoStepBack, NoneStale, NotBefore, NextKept;
    assert frames[..|frames| - 1] == Init(frames) && frames[..|frames|] == frames;
  }

  lemma SoundOnGrid(c: Config, e: Episode)
    requires Sound(c, e)
    ensures OnGrid(e)
  {
  }

  /** Exact rows or a loud abort. A pass over a sound episode goes on exactly if its answerable frames do not step
      back past the fence, no source is stale at one the grid keeps once there is a row, and at most a queue's worth
      is left waiting; and then it consumes all of the answerable frames and no other. With more than that left
      waiting, and only then, it ends for a missing answer; otherwise it ends for its first frame that steps back or
      finds a source stale. */
  lemma PassGoesOnIff(c: Config, e: Episode)
    requires Sound(c, e)
    ensures var m := Answerable(c, e, e.deferred); var head := e.deferred[..m];
            && (Pump(c, e).Going? <==>
                  && NoStepBack(e.lastTs, NotBefore(e.t0, head))
                  && NoneStale(c, e, NextKept(e, head))
                  && |e.deferred| - m <= CLOCK_BUFFER)
            && (Pump(c, e).Going? ==>
                  && Pump(c, e).e.deferred == e.deferred[m..]
                  && Frames(Pump(c, e).e.log.consumed) == Frames(e.log.consumed) + head)
            && ((Pump(c, e).Aborted? && Pump(c, e).why.NeverMatched?) <==>
                  && NoStepBack(e.lastTs, NotBefore(e.t0, head))
                  && NoneStale(c, e, NextKept(e, head))
                  && |e.deferred| - m > CLOCK_BUFFER)
            && (Pump(c, e) == Aborted(ClockBackwards) <==> exists n :: BackwardsAt(c, e, head, n))
            && (Pump(c, e) == Aborted(SourceStale) <==> exists n :: StaleAt(c, e, head, n))
  {
    hide Sound, Pump, Matched, NoneStale, NoStepBack, NextKept, NotBefore, BackwardsAt, StaleAt;
    SoundOnGrid(c, e);
    HeadEnds(c, e, e.deferred[..Answerable(c, e, e.deferred)]);
    HeadIsNoWait(c, e, e.deferred);
    assert With(e, e.deferred) == e;
    PassSplits(c, e);
    HeadGoesOn(c, e, e.deferred[..Answerable(c, e, e.deferred)]);
  }

  // ----- The fence ----------------------------------------------------------------------------

  /** Two passes come to the same: both end for one reason, or both go on with the same rows and grid, and the
      first leaves what the second leaves waiting, apart from fenced frames. */
  ghost predicate SamePass(a: Pumped, b: Pumped) {
    match a
    case Aborted(why) => b == Aborted(why)
    case Going(e) => b.Going? && Alike(e, b.e) && NotBefore(e.t0, e.deferred) == b.e.deferred
  }

  /** Equal up to the queue and the ledger. */
  ghost predicate Alike(e: Episode, h: Episode) {
    h == e.(deferred := h.deferred, log := h.log)
  }

  lemma AlikeFate(c: Config, e: Episode, h: Episode, f: Sample)
    requires Alike(e, h)
    ensures FateOf(c, h, f) == FateOf(c, e, f) && Matched(c, h, f) == Matched(c, e, f)
    ensures Final(FateOf(c, e, f)) ==> Alike(Consume(c, e, f), Consume(c, h, f))
  {
    assert h == With(e, h.deferred).(log := h.log);
    assert forall s :: s in c.others ==> (Answered(s, h, f.fid) <==> Answered(s, e, f.fid));
    assert forall s :: s in c.others ==> (InWindow(s, h, f.ts) <==> InWindow(s, e, f.ts));
    if Matched(c, e, f) && AllInWindow(c, e, f.ts) {
      assert Picks(c, h, f) == Picks(c, e, f);
    }
  }

  lemma FencedFate(c: Config, e: Episode, f: Sample)
    requires Matched(c, e, f) && f.ts < e.t0
    ensures FateOf(c, e, f) == Fenced && Alike(e, Consume(c, e, f))
  {
  }

  lemma {:induction false} MatchedPast(c: Config, e: Episode, frames: seq<Sample>)
    requires AllMatched(c, e, frames)
    ensures AllMatched(c, e, NotBefore(e.t0, frames))
  {
    hide Matched;
    if frames != [] {
      MatchedPast(c, e, Init(frames));
    }
  }

  lemma MatchedWith(c: Config, e: Episode, frames: seq<Sample>)
    requires AllMatched(c, e, frames)
    ensures AllMatched(c, With(e, frames), frames)
  {
    hide Matched;
    forall f | f in frames
      ensures Matched(c, With(e, frames), f)
    {
      MatchedDepends(c, e, With(e, frames), f);
    }
  }

  /** Among answered frames the fenced ones make no difference. */
  lemma {:induction false} AnsweredFencedVanish(c: Config, e: Episode, frames: seq<Sample>)
    requires AllMatched(c, e, frames)
    ensures SamePass(Pump(c, With(e, frames)), Pump(c, With(e, NotBefore(e.t0, frames))))
  {
    hide FateOf, Consume, Matched;
    if frames != [] {
      var front, f := Init(frames), Last(frames);
      var live := NotBefore(e.t0, front);
      assert frames == front + [f] && [f] + [] == [f] && live + [] == live;
      AnsweredFencedVanish(c, e, front);
      NotBeforeConcat(e.t0, front, f);
      MatchedPast(c, e, front);
      MatchedWith(c, e, front);
      MatchedWith(c, e, live);
      PumpAppend(c, With(e, front), [f]);
      PumpAppend(c, With(e, live), [f]);
      assert With(With(e, front), front + [f]) == With(e, frames);
      assert With(With(e, live), live + [f]) == With(e, live + [f]);
      if Pump(c, With(e, front)).Going? {
        var h, k := Pump(c, With(e, front)).e, Pump(c, With(e, live)).e;
        AlikeFate(c, h, k, f);
        MatchedDepends(c, e, h, f);
        PumpHead(c, h, f, []);
        if f.ts < e.t0 {
          FencedFate(c, h, f);
        } else {
          PumpHead(c, k, f, []);
        }
      }
    }
  }

  lemma {:induction false} NotBeforeJoin(t0: int, a: seq<Sample>, b: seq<Sample>)
    ensures NotBefore(t0, a + b) == NotBefore(t0, a) + NotBefore(t0, b)
  {
    if b == [] {
      assert a + b == a;
    } else {
      NotBeforeJoin(t0, a, Init(b));
      assert a + b == (a + Init(b)) + [Last(b)] && b == Init(b) + [Last(b)];
      NotBeforeConcat(t0, a + Init(b), Last(b));
    }
  }

  lemma {:induction false} NotBeforeIn(t0: int, frames: seq<Sample>)
    ensures forall f :: f in NotBefore(t0, frames) <==> f in frames && f.ts >= t0
  {
    if frames != [] {
      var front, last := Init(frames), Last(frames);
      NotBeforeIn(t0, front);
      assert frames == front + [last];
      assert NotBefore(t0, frames) == NotBefore(t0, front) + if last.ts < t0 then [] else [last];
    }
  }

  lemma {:induction false} NotBeforeShorter(t0: int, frames: seq<Sample>)
    ensures |NotBefore(t0, frames)| <= |frames|
  {
    if frames != [] {
      NotBeforeShorter(t0, Init(frames));
    }
  }

  lemma {:induction false} NotBeforeHead(t0: int, frames: seq<Sample>)
    requires frames != []
    ensures NotBefore(t0, frames) == (if frames[0].ts < t0 then [] else [frames[0]]) + NotBefore(t0, frames[1..])
  {
    assert frames == [frames[0]] + frames[1..];
    NotBeforeJoin(t0, [frames[0]], frames[1..]);
    assert Init([frames[0]]) == [] && Last([frames[0]]) == frames[0];
  }

  ghost predicate DistinctIds(frames: seq<Sample>) {
    forall i, j :: 0 <= i < j < |frames| ==> frames[i].fid != frames[j].fid
  }

  /** Few frames wait behind an answered head: dropping the fenced ones comes to the same exactly if that lets no
      live one through. */
  lemma FewWaiting(c: Config, e: Episode, k: Episode, w: seq<Sample>)
    requires Alike(e, k) && |w| <= CLOCK_BUFFER && (w != [] ==> !Matched(c, e, w[0]))
    ensures var live := NotBefore(e.t0, w);
            SamePass(Pump(c, With(e, w)), Pump(c, With(k, live))) <==> Answerable(c, e, live) == 0
  {
    hide Pump, Matched, FateOf, NotBefore;
    var live := NotBefore(e.t0, w);
    NotBeforeShorter(e.t0, w);
    if w != [] {
      MatchedDepends(c, e, With(e, w), w[0]);
    }
    PumpUnmatched(c, With(e, w));
    AnswerableDepends(c, e, With(k, live), live);
    PassSplits(c, With(k, live));
    if Answerable(c, e, live) == 0 {
      assert live[..0] == [] && live[0..] == live;
      PumpNone(c, With(k, []));
    }
  }

  /** Too many frames wait: it comes to the same exactly if the first is live, and too many are. */
  lemma ManyWaiting(c: Config, e: Episode, k: Episode, w: seq<Sample>)
    requires Alike(e, k) && DistinctIds(w) && |w| > CLOCK_BUFFER && !Matched(c, e, w[0])
    ensures var live := NotBefore(e.t0, w);
            SamePass(Pump(c, With(e, w)), Pump(c, With(k, live))) <==> w[0].ts >= e.t0 && |live| > CLOCK_BUFFER
  {
    hide Pump, Matched, FateOf, NotBefore;
    var live := NotBefore(e.t0, w);
    MatchedDepends(c, e, With(e, w), w[0]);
    PumpUnmatched(c, With(e, w));
    NotBeforeHead(e.t0, w);
    if w[0].ts >= e.t0 {
      MatchedDepends(c, e, With(k, live), w[0]);
      PumpUnmatched(c, With(k, live));
    } else {
      NotBeforeIn(e.t0, w);
      PassSplits(c, With(k, live));
      var m := Answerable(c, With(k, live), live);
      if m < |live| {
        assert live[m] in live;
        var i := PositionOf(w, live[m]);
        assert live[m].fid != w[0].fid;
      }
      HeadIsNoWait(c, k, live);
    }
  }

  lemma HeadIsNoWait(c: Config, k: Episode, live: seq<Sample>)
    ensures var head := Pump(c, With(k, live[..Answerable(c, With(k, live), live)]));
            head.Aborted? ==> !head.why.NeverMatched?
  {
    hide Pump, Matched;
    var a := live[..Answerable(c, With(k, live), live)];
    forall f | f in a
      ensures Matched(c, With(k, a), f)
    {
      MatchedDepends(c, With(k, live), With(k, a), f);
    }
    PumpAppend(c, With(k, a), []);
  }

  /** What waits behind an answered head: would dropping its fenced frames come to the same? */
  lemma WaitingFence(c: Config, e: Episode, k: Episode, w: seq<Sample>)
    requires Alike(e, k) && DistinctIds(w) && (w != [] ==> !Matched(c, e, w[0]))
    ensures var live := NotBefore(e.t0, w);
            SamePass(Pump(c, With(e, w)), Pump(c, With(k, live))) <==>
            if |w| <= CLOCK_BUFFER then Answerable(c, e, live) == 0 else w[0].ts >= e.t0 && |live| > CLOCK_BUFFER
  {
    hide SamePass, Pump, Matched, Alike;
    if |w| <= CLOCK_BUFFER {
      FewWaiting(c, e, k, w);
    } else {
      ManyWaiting(c, e, k, w);
    }
  }

  lemma PumpNone(c: Config, e: Episode)
    requires e.deferred == []
    ensures Pump(c, e) == Going(e)
  {
  }

  lemma PositionOf(w: seq<Sample>, f: Sample) returns (i: nat)
    requires f in w
    ensures i < |w| && w[i] == f
  {
    i :| 0 <= i < |w| && w[i] == f;
  }

  lemma {:induction false} AnswerableDepends(c: Config, e: Episode, e': Episode, frames: seq<Sample>)
    requires e'.pairs == e.pairs
    ensures Answerable(c, e, frames) == Answerable(c, e', frames)
  {
    hide Matched;
    if frames != [] {
      MatchedDepends(c, e, e', frames[0]);
      AnswerableDepends(c, e, e', frames[1..]);
    }
  }

  /** The fence is meant to make a pass ignore frames stamped before START. It does exactly if the answered head
      already ends the episode; or few frames wait behind it, and no answered live frame is held up by a fenced one;
      or too many wait, starting with a live one, and too many of them are live. */
  lemma FenceIgnoredIff(c: Config, e: Episode)
    requires DistinctIds(e.deferred)
    ensures var m := Answerable(c, e, e.deferred); var w := e.deferred[m..]; var live := NotBefore(e.t0, w);
            SamePass(Pump(c, e), Pump(c, With(e, NotBefore(e.t0, e.deferred)))) <==>
            || Pump(c, With(e, e.deferred[..m])).Aborted?
            || (if |w| <= CLOCK_BUFFER then Answerable(c, e, live) == 0 else w[0].ts >= e.t0 && |live| > CLOCK_BUFFER)
  {
    hide Pump, Matched, FateOf, Alike;
    var m := Answerable(c, e, e.deferred);
    var a, w := e.deferred[..m], e.deferred[m..];
    assert e.deferred == a + w;
    NotBeforeJoin(e.t0, a, w);
    assert AllMatched(c, e, a);
    MatchedPast(c, e, a);
    AnsweredFencedVanish(c, e, a);
    MatchedWith(c, e, a);
    var live := NotBefore(e.t0, a);
    MatchedWith(c, e, live);
    PumpAppend(c, With(e, a), w);
    PumpAppend(c, With(e, live), NotBefore(e.t0, w));
    assert With(With(e, a), a + w) == e;
    assert With(With(e, live), live + NotBefore(e.t0, w)) == With(e, NotBefore(e.t0, e.deferred));
    if Pump(c, With(e, a)).Going? {
      var h, k := Pump(c, With(e, a)).e, Pump(c, With(e, live)).e;
      if w != [] {
        MatchedDepends(c, e, h, w[0]);
      }
      AnswerableDepends(c, e, h, NotBefore(e.t0, w));
      WaitingFence(c, h, k, w);
    }
  }

  /** For a sound episode the whole condition can be read off the queue before the pass. */
  lemma FenceIgnoredBefore(c: Config, e: Episode)
    requires Sound(c, e) && DistinctIds(e.deferred)
    ensures var m := Answerable(c, e, e.deferred); var head, w := e.deferred[..m], e.deferred[m..];
            var live := NotBefore(e.t0, w);
            SamePass(Pump(c, e), Pump(c, With(e, NotBefore(e.t0, e.deferred)))) <==>
            || !NoStepBack(e.lastTs, NotBefore(e.t0, head))
            || !NoneStale(c, e, NextKept(e, head))
            || (if |w| <= CLOCK_BUFFER then Answerable(c, e, live) == 0 else w[0].ts >= e.t0 && |live| > CLOCK_BUFFER)
  {
    hide Sound, Pump, Matched, NoneStale, NoStepBack, NextKept, NotBefore, SamePass;
    SoundOnGrid(c, e);
    FenceIgnoredIff(c, e);
    HeadGoesOn(c, e, e.deferred[..Answerable(c, e, e.deferred)]);
  }

  /** One camera and one paired source. */
  const LOCKSTEP := Config(Source("cam", "image", 30.0, false), [Source("act", "action", 30.0, true)])

  /** A full queue of frames from before START, none of them ever answered; and a frame of the recording, with its
      answer. */
  const IDLE_FRAMES := [Sample(1, 1, 0), Sample(2, 2, 0), Sample(3, 3, 0), Sample(4, 4, 0),
                        Sample(5, 5, 0), Sample(6, 6, 0), Sample(7, 7, 0), Sample(8, 8, 0)]
  const LIVE_FRAME := Sample(9, 200, 0)
  const LIVE_ANSWER := Sample(9, 200, 7)

  /** The first pass drains the queue and waits. The second ends the recording, although its own frame is answered and
      only frames from before its START, which the fence is meant to ignore, are not. Without those it goes on. */
  lemma FencedFramesAbort()
    ensures var first := Capture(LOCKSTEP, Fresh(0, 100), [[]], IDLE_FRAMES);
            && first.Going? && first.e.rows == []
            && Capture(LOCKSTEP, first.e, [[LIVE_ANSWER]], [LIVE_FRAME]) == Aborted(NeverMatched(1))
    ensures var first := Capture(LOCKSTEP, Fresh(0, 100), [[]], NotBefore(100, IDLE_FRAMES));
            && first.Going?
            && Capture(LOCKSTEP, first.e, [[LIVE_ANSWER]], [LIVE_FRAME]).Going?
  {
    hide Pump, NotBefore, Matched, FateOf, RefreshAll;
    NoneLive(100, IDLE_FRAMES);
    var e := NothingAnswered();
    var waiting := Enqueue(e, IDLE_FRAMES);
    assert waiting.deferred == IDLE_FRAMES;
    OnlyAnswered(waiting, IDLE_FRAMES[0], {});
    PumpUnmatched(LOCKSTEP, waiting);
    OneAnsweredIs(waiting);
    var full := Enqueue(OneAnswered(waiting), [LIVE_FRAME]);
    assert full.deferred == IDLE_FRAMES + [LIVE_FRAME];
    OnlyAnswered(full, IDLE_FRAMES[0], {9});
    PumpUnmatched(LOCKSTEP, full);
    var empty := Enqueue(e, []);
    assert empty.deferred == [];
    PumpNone(LOCKSTEP, empty);
    OneAnsweredIs(empty);
    var live := Enqueue(OneAnswered(empty), [LIVE_FRAME]);
    assert live.deferred == [LIVE_FRAME];
    OnlyAnswered(live, LIVE_FRAME, {9});
    FirstRecorded(live, LIVE_FRAME);
  }

  lemma OneSource(e: Episode, got: seq<Sample>)
    ensures RefreshAll(LOCKSTEP.others, e, [got]) == Refresh(LOCKSTEP.others[0], e, got)
  {
    assert Init(LOCKSTEP.others) == [] && Init([got]) == [] && Last([got]) == got;
  }

  lemma NothingAnswered() returns (e: Episode)
    ensures e == RefreshAll(LOCKSTEP.others, Fresh(0, 100), [[]])
    ensures e.pairs == map["act" := map[]]
    ensures e.deferred == [] && e.rows == [] && e.t0 == 100 && e.lastTs == 0 && e.period == 0
  {
    e := Refresh(LOCKSTEP.others[0], Fresh(0, 100), []);
    OneSource(Fresh(0, 100), []);
  }

  lemma OneAnsweredIs(before: Episode)
    requires before.pairs == map["act" := map[]]
    ensures var e := OneAnswered(before);
            && e.pairs.Keys == {"act"} && e.pairs["act"].Keys == {9}
            && e == before.(pairs := e.pairs, log := e.log)
  {
    assert Init([LIVE_ANSWER]) == [];
    assert Hold(map[], [LIVE_ANSWER]) == map[9 := LIVE_ANSWER];
    assert Trim(map[9 := LIVE_ANSWER]) == map[9 := LIVE_ANSWER];
    OneSource(before, [LIVE_ANSWER]);
  }

  function OneAnswered(before: Episode): Episode {
    RefreshAll(LOCKSTEP.others, before, [[LIVE_ANSWER]])
  }

  lemma OnlyAnswered(e: Episode, f: Sample, ids: set<nat>)
    requires e.pairs.Keys == {"act"} && e.pairs["act"].Keys == ids
    ensures Matched(LOCKSTEP, e, f) <==> f.fid in ids
  {
    assert LOCKSTEP.others[0] in LOCKSTEP.others;
    assert Answered(LOCKSTEP.others[0], e, f.fid) <==> f.fid in ids;
  }

  lemma {:induction false} NoneLive(t0: int, frames: seq<Sample>)
    requires forall f :: f in frames ==> f.ts < t0
    ensures NotBefore(t0, frames) == []
  {
    if frames != [] {
      NoneLive(t0, Init(frames));
    }
  }

  lemma FirstRecorded(e: Episode, f: Sample)
    requires Matched(LOCKSTEP, e, f) && e.deferred == [f] && e.period == 0 && e.t0 <= f.ts && e.lastTs <= f.ts
    ensures Pump(LOCKSTEP, e).Going?
  {
    hide Matched;
    assert LOCKSTEP.others == [LOCKSTEP.others[0]];
    assert AllInWindow(LOCKSTEP, e, f.ts);
    assert FateOf(LOCKSTEP, e, f) == Recorded;
    assert With(e, [f] + []) == e;
    PumpHead(LOCKSTEP, e, f, []);
    PumpNone(LOCKSTEP, With(Consume(LOCKSTEP, e, f), []));
  }
}
