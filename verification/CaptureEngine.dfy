/** The clock-gated capture engine as functions on values.

    An `Episode` holds what the recorder's reset clears, plus a ledger of everything that went in
    and what became of it. `Capture` is one pass: refresh every source, queue the drained clock
    frames, then consume queued frames until one must wait. The invariant `Sound` and the lemmas
    below say what every such pass keeps. */
module CaptureEngine {
  import opened Basics
  import opened Grid

  const CLOCK_BUFFER := 8
  const PAIR_CACHE := 4 * CLOCK_BUFFER
  const JITTER_NS := 5000000

  type Topic = string
  type Feature = string
  type Rate = r: real | r > 0.0 witness 1.0

  datatype Source = Source(topic: Topic, feature: Feature, rateHz: Rate, paired: bool)
  datatype Config = Config(clock: Source, others: seq<Source>)

  datatype Row = Row(ts: int, data: map<Feature, Sample>)

  /** What became of a clock frame. The last three are not final: the frame waits, or the episode ends. */
  datatype Fate = Fenced | Gated | Skipped | Recorded | Waiting | Backwards | Stale

  datatype Reason = ClockBackwards | SourceStale | NeverMatched(fid: nat) | ClockSilent

  datatype Entry = Entry(frame: Sample, fate: Fate)

  /** Everything since START: clock frames drained, samples taken in by topic, frames consumed with their fate. */
  datatype Ledger = Ledger(drained: seq<Sample>, delivered: set<(Topic, Sample)>, consumed: seq<Entry>)

  datatype Episode = Episode(
    deferred: seq<Sample>,
    rows: seq<Row>,
    cache: map<Topic, Sample>,
    pairs: map<Topic, map<nat, Sample>>,
    period: nat,
    nextDue: int,
    lastTs: int,
    t0: int,
    log: Ledger)

  function Fresh(period: nat, t0: int): Episode {
    Episode([], [], map[], map[], period, 0, 0, t0, Ledger([], {}, []))
  }

  // ----- Refreshing the source caches ---------------------------------------------------------

  function TolNs(s: Source): int {
    (1000000000.0 / s.rateHz).Floor + JITTER_NS
  }

  function Hold(held: map<nat, Sample>, answers: seq<Sample>): map<nat, Sample>
    decreases |answers|
  {
    if answers == [] then held else Hold(held, Init(answers))[Last(answers).fid := Last(answers)]
  }

  lemma {:induction false} LeastExists(s: set<nat>) returns (m: nat)
    requires s != {}
    ensures m in s && forall k :: k in s ==> m <= k
  {
    var x :| x in s;
    if s == {x} {
      m := x;
    } else {
      var n := LeastExists(s - {x});
      m := if n < x then n else x;
      forall k | k in s
        ensures m <= k
      {
        assert k == x || k in s - {x};
      }
    }
  }

  function Least(s: set<nat>): (m: nat)
    requires s != {}
    ensures m in s && forall k :: k in s ==> m <= k
  {
    assert exists m :: m in s && forall k :: k in s ==> m <= k by {
      var m := LeastExists(s);
    }
    var m :| m in s && forall k :: k in s ==> m <= k;
    m
  }

  function Trim(held: map<nat, Sample>): (r: map<nat, Sample>)
    ensures |r| <= PAIR_CACHE
    ensures r.Keys <= held.Keys && forall k :: k in r ==> r[k] == held[k]
    ensures forall k, e :: k in r && e in held && e !in r ==> e < k
    decreases |held|
  {
    if |held| <= PAIR_CACHE then held
    else
      assert held.Keys != {};
      var m := Least(held.Keys);
      assert (held - {m}).Keys == held.Keys - {m};
      Trim(held - {m})
  }

  /** No more is evicted than must be: 32 answers, four of the clock's queues, are kept. */
  lemma {:induction false} TrimSize(held: map<nat, Sample>)
    ensures |Trim(held)| == if |held| <= 32 then |held| else 32
    decreases |held|
  {
    if |held| > PAIR_CACHE {
      assert held.Keys != {};
      var m := Least(held.Keys);
      assert (held - {m}).Keys == held.Keys - {m};
      TrimSize(held - {m});
    }
  }

  function HeldFor(e: Episode, topic: Topic): map<nat, Sample> {
    if topic in e.pairs then e.pairs[topic] else map[]
  }

  function Delivery(s: Source, got: seq<Sample>): set<(Topic, Sample)> {
    if s.paired then set x | x in got :: (s.topic, x)
    else if got == [] then {}
    else {(s.topic, Last(got))}
  }

  /** One source's turn: a paired source drains its queue into the held answers, a window source
      keeps its newest sample. */
  function Refresh(s: Source, e: Episode, got: seq<Sample>): Episode {
    var log := e.log.(delivered := e.log.delivered + Delivery(s, got));
    if s.paired then e.(pairs := e.pairs[s.topic := Trim(Hold(HeldFor(e, s.topic), got))], log := log)
    else if got == [] then e
    else e.(cache := e.cache[s.topic := Last(got)], log := log)
  }

  function RefreshAll(others: seq<Source>, e: Episode, polls: seq<seq<Sample>>): Episode
    requires |polls| == |others|
  {
    if others == [] then e else Refresh(Last(others), RefreshAll(Init(others), e, Init(polls)), Last(polls))
  }

  function Enqueue(e: Episode, frames: seq<Sample>): Episode {
    e.(deferred := e.deferred + frames, log := e.log.(drained := e.log.drained + frames))
  }

  // ----- One clock frame ----------------------------------------------------------------------

  predicate Answered(s: Source, e: Episode, fid: nat) {
    s.paired ==> s.topic in e.pairs && fid in e.pairs[s.topic]
  }

  predicate Matched(c: Config, e: Episode, f: Sample) {
    forall s :: s in c.others ==> Answered(s, e, f.fid)
  }

  predicate Near(s: Source, sampleTs: int, ts: int) {
    Abs(sampleTs - ts) <= TolNs(s)
  }

  predicate InWindow(s: Source, e: Episode, ts: int) {
    !s.paired ==> s.topic in e.cache && Near(s, e.cache[s.topic].ts, ts)
  }

  predicate AllInWindow(c: Config, e: Episode, ts: int) {
    forall s :: s in c.others ==> InWindow(s, e, ts)
  }

  function FateOf(c: Config, e: Episode, f: Sample): Fate {
    if !Matched(c, e, f) then Waiting
    else if f.ts < e.t0 then Fenced
    else if f.ts < e.lastTs then Backwards
    else if !Gate(f.ts, e.nextDue, e.period).keep then Gated
    else if AllInWindow(c, e, f.ts) then Recorded
    else if e.rows == [] then Skipped
    else Stale
  }

  function Pick(s: Source, e: Episode, f: Sample): Sample
    requires Answered(s, e, f.fid) && InWindow(s, e, f.ts)
  {
    if s.paired then e.pairs[s.topic][f.fid] else e.cache[s.topic]
  }

  /** The row's features: the clock frame's, then every other source's, later sources winning a shared name. */
  function Fill(c: Config, f: Sample, others: seq<Source>, picks: map<Source, Sample>): map<Feature, Sample>
    requires forall s :: s in others ==> s in picks
  {
    if others == [] then map[c.clock.feature := f]
    else Fill(c, f, Init(others), picks)[Last(others).feature := picks[Last(others)]]
  }

  function Picks(c: Config, e: Episode, f: Sample): map<Source, Sample>
    requires Matched(c, e, f) && AllInWindow(c, e, f.ts)
  {
    map s | s in c.others :: Pick(s, e, f)
  }

  function RowFor(c: Config, e: Episode, f: Sample): Row
    requires Matched(c, e, f) && AllInWindow(c, e, f.ts)
  {
    Row(f.ts, Fill(c, f, c.others, Picks(c, e, f)))
  }

  predicate Final(fate: Fate) {
    fate.Fenced? || fate.Gated? || fate.Skipped? || fate.Recorded?
  }

  function Consume(c: Config, e: Episode, f: Sample): Episode
    requires Final(FateOf(c, e, f))
  {
    var fate := FateOf(c, e, f);
    var e' := e.(log := e.log.(consumed := e.log.consumed + [Entry(f, fate)]));
    if fate.Fenced? then e'
    else
      var moved := e'.(lastTs := f.ts, nextDue := Gate(f.ts, e.nextDue, e.period).next);
      if fate.Recorded? then moved.(rows := e.rows + [RowFor(c, e, f)]) else moved
  }

  // ----- One pass -----------------------------------------------------------------------------

  datatype Pumped = Going(e: Episode) | Aborted(why: Reason)

  /** Consume queued frames from the head until one waits, none is left, or the episode must end. */
  function Pump(c: Config, e: Episode): Pumped
    decreases |e.deferred|
  {
    if e.deferred == [] then Going(e)
    else
      var f := e.deferred[0];
      match FateOf(c, e, f)
      case Waiting => if |e.deferred| > CLOCK_BUFFER then Aborted(NeverMatched(f.fid)) else Going(e)
      case Backwards => Aborted(ClockBackwards)
      case Stale => Aborted(SourceStale)
      case _ => Pump(c, Consume(c, e, f).(deferred := e.deferred[1..]))
  }

  function Capture(c: Config, e: Episode, polls: seq<seq<Sample>>, frames: seq<Sample>): Pumped
    requires |polls| == |c.others|
  {
    Pump(c, Enqueue(RefreshAll(c.others, e, polls), frames))
  }

  // ----- What a sound episode looks like ------------------------------------------------------

  function Frames(entries: seq<Entry>): seq<Sample> {
    seq(|entries|, i requires 0 <= i < |entries| => entries[i].frame)
  }

  /** The frames that met one fate, in order. */
  function Of(entries: seq<Entry>, fate: Fate): seq<Sample> {
    if entries == [] then [] else
      Of(Init(entries), fate) + if Last(entries).fate == fate then [Last(entries).frame] else []
  }

  /** The frames not stamped before the start fence, in order. */
  function NotBefore(t0: int, frames: seq<Sample>): seq<Sample> {
    if frames == [] then [] else
      NotBefore(t0, Init(frames)) + if Last(frames).ts < t0 then [] else [Last(frames)]
  }

  /** A row belongs to clock frame f: it carries f's stamp, and is filled from f and one sample per other
      source. Each of those really arrived on the source's topic since START; its frame id is f's if the
      source is paired, and its stamp is in tolerance if it is not. */
  ghost predicate Aligned(c: Config, delivered: set<(Topic, Sample)>, r: Row, f: Sample) {
    exists picks: map<Source, Sample> :: AlignedBy(c, delivered, r, f, picks)
  }

  ghost predicate AlignedBy(c: Config, delivered: set<(Topic, Sample)>, r: Row, f: Sample, picks: map<Source, Sample>) {
    && (forall s :: s in c.others ==> s in picks && AlignedPick(s, delivered, picks[s], f))
    && r == Row(f.ts, Fill(c, f, c.others, picks))
  }

  ghost predicate AlignedPick(s: Source, delivered: set<(Topic, Sample)>, v: Sample, f: Sample) {
    && (s.topic, v) in delivered
    && (if s.paired then v.fid == f.fid else Near(s, v.ts, f.ts))
  }

  ghost predicate CachesSound(e: Episode) {
    && (forall t :: t in e.pairs ==> |e.pairs[t]| <= PAIR_CACHE)
    && (forall t, k :: t in e.pairs && k in e.pairs[t] ==>
          e.pairs[t][k].fid == k && (t, e.pairs[t][k]) in e.log.delivered)
    && (forall t :: t in e.cache ==> (t, e.cache[t]) in e.log.delivered)
  }

  /** Frames are conserved in order, and the fate of each is the one its stamp and the grid dictate. */
  ghost predicate FramesSound(e: Episode) {
    && e.log.drained == Frames(e.log.consumed) + e.deferred
    && (forall i :: 0 <= i < |e.log.consumed| ==> FateFits(e.log.consumed[i], e.t0))
    && var live := NotBefore(e.t0, Frames(e.log.consumed));
       && e.nextDue == Cursor(e.period, live)
       && Kept(e.period, live) == Of(e.log.consumed, Skipped) + Of(e.log.consumed, Recorded)
       && (live != [] ==> e.lastTs == Last(live).ts)
       && (live == [] ==> e.lastTs == 0)
       && Ordered(live)
  }

  ghost predicate FateFits(x: Entry, t0: int) {
    Final(x.fate) && (x.fate.Fenced? <==> x.frame.ts < t0)
  }

  ghost predicate Ordered(frames: seq<Sample>) {
    forall i, j :: 0 <= i < j < |frames| ==> frames[i].ts <= frames[j].ts
  }

  ghost predicate AllPaired(c: Config) {
    forall s :: s in c.others ==> s.paired
  }

  ghost predicate AllAligned(c: Config, delivered: set<(Topic, Sample)>, rows: seq<Row>, frames: seq<Sample>) {
    |rows| == |frames| && forall i :: 0 <= i < |rows| ==> Aligned(c, delivered, rows[i], frames[i])
  }

  ghost predicate InOrder(rows: seq<Row>, from: int, to: int) {
    && (forall i, j :: 0 <= i < j < |rows| ==> rows[i].ts <= rows[j].ts)
    && (forall i :: 0 <= i < |rows| ==> from <= rows[i].ts <= to)
  }

  ghost predicate RowsSound(c: Config, e: Episode) {
    && AllAligned(c, e.log.delivered, e.rows, Of(e.log.consumed, Recorded))
    && InOrder(e.rows, e.t0, e.lastTs)
    && (AllPaired(c) ==> Of(e.log.consumed, Skipped) == [])
  }

  ghost predicate Sound(c: Config, e: Episode) {
    CachesSound(e) && FramesSound(e) && RowsSound(c, e)
  }

  lemma FreshSound(c: Config, period: nat, t0: int)
    ensures Sound(c, Fresh(period, t0))
  {
    assert Frames([]) == [];
  }

  lemma {:induction false} HoldSound(held: map<nat, Sample>, answers: seq<Sample>)
    requires forall k :: k in held ==> held[k].fid == k
    ensures var r := Hold(held, answers);
            && (forall k :: k in r ==> r[k].fid == k && (r[k] in answers || (k in held && r[k] == held[k])))
            && r.Keys == held.Keys + set a | a in answers :: a.fid
  {
    if answers != [] {
      HoldSound(held, Init(answers));
      assert forall a :: a in answers <==> a in Init(answers) || a == Last(answers);
    }
  }

  /** The position of the last answer with this id, or the length if there is none. */
  function LatestAt(answers: seq<Sample>, k: nat): (i: nat)
    ensures i <= |answers| && forall j :: i < j < |answers| ==> answers[j].fid != k
    ensures if i < |answers| then answers[i].fid == k else forall j :: 0 <= j < |answers| ==> answers[j].fid != k
  {
    if answers == [] then 0
    else if Last(answers).fid == k then |answers| - 1
    else
      var i := LatestAt(Init(answers), k);
      if i == |answers| - 1 then |answers| else i
  }

  /** What is held under an id is the latest answer drained for it, or else the one held before. */
  lemma {:induction false} HoldIs(held: map<nat, Sample>, answers: seq<Sample>, k: nat)
    ensures var r := Hold(held, answers); var i := LatestAt(answers, k);
            && (k in r <==> i < |answers| || k in held)
            && (k in r ==> r[k] == if i < |answers| then answers[i] else held[k])
  {
    if answers != [] {
      HoldIs(held, Init(answers), k);
    }
  }

  lemma AlignedMonotone(c: Config, small: set<(Topic, Sample)>, big: set<(Topic, Sample)>, rows: seq<Row>,
                        frames: seq<Sample>)
    requires AllAligned(c, small, rows, frames) && small <= big
    ensures AllAligned(c, big, rows, frames)
  {
    forall i | 0 <= i < |rows|
      ensures Aligned(c, big, rows[i], frames[i])
    {
      var picks :| AlignedBy(c, small, rows[i], frames[i], picks);
      assert AlignedBy(c, big, rows[i], frames[i], picks);
    }
  }

  lemma RefreshCaches(s: Source, e: Episode, got: seq<Sample>)
    requires CachesSound(e)
    ensures CachesSound(Refresh(s, e, got))
  {
    var e' := Refresh(s, e, got);
    if s.paired {
      HoldSound(HeldFor(e, s.topic), got);
      forall t, k | t in e'.pairs && k in e'.pairs[t]
        ensures e'.pairs[t][k].fid == k && (t, e'.pairs[t][k]) in e'.log.delivered
      {
        if t == s.topic {
          assert e'.pairs[t] == Trim(Hold(HeldFor(e, s.topic), got));
        }
      }
    }
  }

  lemma RefreshSound(c: Config, s: Source, e: Episode, got: seq<Sample>)
    requires Sound(c, e)
    ensures Sound(c, Refresh(s, e, got))
  {
    RefreshCaches(s, e, got);
    AlignedMonotone(c, e.log.delivered, Refresh(s, e, got).log.delivered, e.rows, Of(e.log.consumed, Recorded));
  }

  lemma {:induction false} RefreshAllSound(c: Config, others: seq<Source>, e: Episode, polls: seq<seq<Sample>>)
    requires |polls| == |others| && Sound(c, e)
    ensures Sound(c, RefreshAll(others, e, polls))
    ensures var e' := RefreshAll(others, e, polls);
            && e.log.delivered <= e'.log.delivered
            && e' == e.(cache := e'.cache, pairs := e'.pairs, log := e.log.(delivered := e'.log.delivered))
  {
    if others != [] {
      RefreshAllSound(c, Init(others), e, Init(polls));
      RefreshSound(c, Last(others), RefreshAll(Init(others), e, Init(polls)), Last(polls));
    }
  }

  lemma NewRowAligned(c: Config, e: Episode, f: Sample)
    requires CachesSound(e) && Matched(c, e, f) && AllInWindow(c, e, f.ts)
    ensures Aligned(c, e.log.delivered, RowFor(c, e, f), f)
  {
    var picks := Picks(c, e, f);
    forall s | s in c.others
      ensures s in picks && AlignedPick(s, e.log.delivered, picks[s], f)
    {
      assert Answered(s, e, f.fid) && InWindow(s, e, f.ts);
    }
    assert AlignedBy(c, e.log.delivered, RowFor(c, e, f), f, picks);
  }

  lemma LogSnoc(entries: seq<Entry>, x: Entry, t0: int)
    ensures Frames(entries + [x]) == Frames(entries) + [x.frame]
    ensures NotBefore(t0, Frames(entries + [x])) ==
            NotBefore(t0, Frames(entries)) + if x.frame.ts < t0 then [] else [x.frame]
    ensures forall fate :: Of(entries + [x], fate) == Of(entries, fate) + if x.fate == fate then [x.frame] else []
  {
    SnocParts(entries, x);
    SnocParts(Frames(entries), x.frame);
    assert Frames(entries + [x]) == Frames(entries) + [x.frame];
  }

  lemma KeptSplits(period: int, live: seq<Sample>, skipped: seq<Sample>, recorded: seq<Sample>, f: Sample, fate: Fate)
    requires Kept(period, live) == skipped + recorded
    requires Gate(f.ts, Cursor(period, live), period).keep <==> fate.Skipped? || fate.Recorded?
    requires fate.Skipped? ==> recorded == []
    ensures Kept(period, live + [f]) ==
            (skipped + if fate.Skipped? then [f] else []) + (recorded + if fate.Recorded? then [f] else [])
  {
    KeptSnoc(period, live, f);
    if fate.Recorded? {
      Assoc(skipped, recorded, [f]);
      assert skipped + [] == skipped;
    } else if fate.Skipped? {
      assert skipped + recorded == skipped;
    } else {
      assert skipped + [] == skipped && recorded + [] == recorded;
    }
  }

  lemma OrderedSnoc(live: seq<Sample>, f: Sample)
    requires Ordered(live) && (live != [] ==> Last(live).ts <= f.ts)
    ensures Ordered(live + [f])
  {
    forall i, j | 0 <= i < j < |live + [f]|
      ensures (live + [f])[i].ts <= (live + [f])[j].ts
    {
      if j == |live| {
        assert live[i].ts <= Last(live).ts;
      }
    }
  }

  /** Moving the head of the queue to the ledger, given what its fate says about it. */
  lemma MoveHead(e: Episode, fate: Fate, e': Episode)
    requires FramesSound(e) && e.deferred != []
    requires var f := e.deferred[0];
             && FateFits(Entry(f, fate), e.t0)
             && (fate.Skipped? ==> Of(e.log.consumed, Recorded) == [])
             && (if fate.Fenced? then e'.lastTs == e.lastTs && e'.nextDue == e.nextDue else
                 && e.lastTs <= f.ts == e'.lastTs
                 && e'.nextDue == Gate(f.ts, e.nextDue, e.period).next
                 && (Gate(f.ts, e.nextDue, e.period).keep <==> fate.Skipped? || fate.Recorded?))
             && e'.period == e.period && e'.t0 == e.t0 && e'.deferred == e.deferred[1..]
             && e'.log == e.log.(consumed := e.log.consumed + [Entry(f, fate)])
    ensures FramesSound(e')
  {
    var f := e.deferred[0];
    var live := NotBefore(e.t0, Frames(e.log.consumed));
    LogSnoc(e.log.consumed, Entry(f, fate), e.t0);
    assert e'.log.drained == Frames(e'.log.consumed) + e'.deferred by {
      assert e.deferred == [f] + e.deferred[1..];
      Assoc(Frames(e.log.consumed), [f], e.deferred[1..]);
    }
    hide Kept, Cursor, NotBefore, Of, Frames, Gate;
    if fate.Fenced? {
      assert live + [] == live;
      assert NotBefore(e.t0, Frames(e'.log.consumed)) == live;
    } else {
      OrderedSnoc(live, f);
      KeptSnoc(e.period, live, f);
      KeptSplits(e.period, live, Of(e.log.consumed, Skipped), Of(e.log.consumed, Recorded), f, fate);
    }
  }

  lemma ConsumeFrames(c: Config, e: Episode)
    requires FramesSound(e) && e.deferred != [] && Final(FateOf(c, e, e.deferred[0]))
    requires e.rows == [] <==> Of(e.log.consumed, Recorded) == []
    ensures FramesSound(Consume(c, e, e.deferred[0]).(deferred := e.deferred[1..]))
  {
    MoveHead(e, FateOf(c, e, e.deferred[0]), Consume(c, e, e.deferred[0]).(deferred := e.deferred[1..]));
  }

  lemma AppendRow(rows: seq<Row>, r: Row, from: int, to: int)
    requires InOrder(rows, from, to) && from <= r.ts && to <= r.ts
    ensures InOrder(rows + [r], from, r.ts)
  {
  }

  lemma AppendAligned(c: Config, delivered: set<(Topic, Sample)>, rows: seq<Row>, frames: seq<Sample>, r: Row,
                      f: Sample)
    requires AllAligned(c, delivered, rows, frames) && Aligned(c, delivered, r, f)
    ensures AllAligned(c, delivered, rows + [r], frames + [f])
  {
  }

  /** A recorded frame appends its row; every other fate leaves the rows alone. */
  lemma ConsumeRows(c: Config, e: Episode)
    requires CachesSound(e) && RowsSound(c, e) && e.deferred != [] && Final(FateOf(c, e, e.deferred[0]))
    ensures RowsSound(c, Consume(c, e, e.deferred[0]).(deferred := e.deferred[1..]))
  {
    var f := e.deferred[0];
    var x := Entry(f, FateOf(c, e, f));
    LogSnoc(e.log.consumed, x, e.t0);
    var recorded := Of(e.log.consumed, Recorded);
    if x.fate.Recorded? {
      NewRowAligned(c, e, f);
      AppendRow(e.rows, RowFor(c, e, f), e.t0, e.lastTs);
      AppendAligned(c, e.log.delivered, e.rows, recorded, RowFor(c, e, f), f);
    } else {
      assert recorded + [] == recorded;
    }
  }

  lemma ConsumeSound(c: Config, e: Episode)
    requires Sound(c, e) && e.deferred != [] && Final(FateOf(c, e, e.deferred[0]))
    ensures Sound(c, Consume(c, e, e.deferred[0]).(deferred := e.deferred[1..]))
  {
    ConsumeFrames(c, e);
    ConsumeRows(c, e);
  }

  lemma {:induction false} PumpSound(c: Config, e: Episode)
    requires Sound(c, e)
    ensures Pump(c, e).Going? ==> Sound(c, Pump(c, e).e)
    decreases |e.deferred|
  {
    if e.deferred != [] && Final(FateOf(c, e, e.deferred[0])) {
      ConsumeSound(c, e);
      PumpSound(c, Consume(c, e, e.deferred[0]).(deferred := e.deferred[1..]));
    }
  }

  /** What a pass that stays in recording leaves behind: a bounded queue whose head, if any, still lacks an
      answer; the same caches; and at most one more row per queued frame. */
  lemma {:induction false} PumpShape(c: Config, e: Episode)
    requires Pump(c, e).Going?
    ensures var e' := Pump(c, e).e;
            && |e'.deferred| <= |e.deferred| && e'.deferred == e.deferred[|e.deferred| - |e'.deferred|..]
            && (e'.deferred != [] ==> |e'.deferred| <= CLOCK_BUFFER && !Matched(c, e', e'.deferred[0]))
            && e'.pairs == e.pairs && e'.cache == e.cache && e'.period == e.period && e'.t0 == e.t0
            && e'.log.drained == e.log.drained && e'.log.delivered == e.log.delivered
            && e.rows <= e'.rows && |e'.rows| + |e'.deferred| <= |e.rows| + |e.deferred|
    decreases |e.deferred|
  {
    if e.deferred != [] && Final(FateOf(c, e, e.deferred[0])) {
      var next := Consume(c, e, e.deferred[0]).(deferred := e.deferred[1..]);
      PumpShape(c, next);
      var e' := Pump(c, e).e;
      assert e'.deferred == e.deferred[1..][|e.deferred| - 1 - |e'.deferred|..];
    } else {
      assert e.deferred[0..] == e.deferred;
    }
  }

  /** One pass keeps an episode sound. */
  lemma CaptureSound(c: Config, e: Episode, polls: seq<seq<Sample>>, frames: seq<Sample>)
    requires Sound(c, e) && |polls| == |c.others|
    requires Capture(c, e, polls, frames).Going?
    ensures var e' := Capture(c, e, polls, frames).e;
            && Sound(c, e')
            && e'.log.drained == e.log.drained + frames
            && e'.period == e.period && e'.t0 == e.t0 && e.rows <= e'.rows
            && |e'.rows| <= |e.rows| + |e.deferred| + |frames|
            && (e'.deferred != [] ==> |e'.deferred| <= CLOCK_BUFFER && !Matched(c, e', e'.deferred[0]))
  {
    RefreshAllSound(c, c.others, e, polls);
    var refreshed := RefreshAll(c.others, e, polls);
    EnqueueSound(c, refreshed, frames);
    PumpSound(c, Enqueue(refreshed, frames));
    PumpShape(c, Enqueue(refreshed, frames));
  }

  lemma EnqueueSound(c: Config, e: Episode, frames: seq<Sample>)
    requires Sound(c, e)
    ensures Sound(c, Enqueue(e, frames))
  {
    assert (Frames(e.log.consumed) + e.deferred) + frames == Frames(e.log.consumed) + (e.deferred + frames);
  }

  // ----- What soundness means for a reader of the rows ----------------------------------------

  /** The last source to claim this feature name. */
  function Claimant(others: seq<Source>, k: Feature): (r: Option<Source>)
    ensures r.None? ==> forall s :: s in others ==> s.feature != k
    ensures r.Some? ==> exists i :: LastNaming(others, i, k) && r.value == others[i]
  {
    if others == [] then None
    else if Last(others).feature == k then
      assert LastNaming(others, |others| - 1, k);
      Some(Last(others))
    else
      var r := Claimant(Init(others), k);
      assert forall i :: LastNaming(Init(others), i, k) ==> LastNaming(others, i, k);
      r
  }

  ghost predicate LastNaming(others: seq<Source>, i: int, k: Feature) {
    0 <= i < |others| && others[i].feature == k && forall j :: i < j < |others| ==> others[j].feature != k
  }

  lemma {:induction false} FillValues(c: Config, f: Sample, others: seq<Source>, picks: map<Source, Sample>, k: Feature)
    requires forall s :: s in others ==> s in picks
    ensures var data := Fill(c, f, others, picks); var claim := Claimant(others, k);
            && (k in data <==> k == c.clock.feature || claim.Some?)
            && (claim.Some? ==> claim.value in others)
            && (k in data ==> data[k] == if claim.Some? then picks[claim.value] else f)
  {
    if others != [] {
      FillValues(c, f, Init(others), picks, k);
    }
  }

  /** Exact rows. Row i belongs to one recorded clock frame and has exactly the configured features. A feature that no
      other source claims holds that frame itself; any other holds a sample that arrived since START for the last
      source claiming it: with the frame's own id if the source is paired, within one source period plus jitter
      of it if not. */
  lemma RowValues(c: Config, e: Episode, i: nat, k: Feature) returns (f: Sample)
    requires Sound(c, e) && i < |e.rows|
    ensures i < |Of(e.log.consumed, Recorded)| && f == Of(e.log.consumed, Recorded)[i] && e.rows[i].ts == f.ts >= e.t0
    ensures k in e.rows[i].data <==> k == c.clock.feature || Claimant(c.others, k).Some?
    ensures k in e.rows[i].data ==>
              match Claimant(c.others, k)
              case None => e.rows[i].data[k] == f
              case Some(s) => s in c.others && AlignedPick(s, e.log.delivered, e.rows[i].data[k], f)
  {
    f := Of(e.log.consumed, Recorded)[i];
    var picks :| AlignedBy(c, e.log.delivered, e.rows[i], f, picks);
    FillValues(c, f, c.others, picks, k);
  }

  /** The tolerance in the source's own unit: one declared period, plus the jitter allowance. */
  lemma NearMeans(s: Source, sampleTs: int, ts: int)
    ensures Near(s, sampleTs, ts) <==> Abs(sampleTs - ts) as real <= 1000000000.0 / s.rateHz + 5000000.0
  {
    var p := 1000000000.0 / s.rateHz;
    assert p.Floor as real <= p < p.Floor as real + 1.0;
  }

  /** Every paired source holds an answer to this id. */
  ghost predicate HasAnswers(c: Config, e: Episode, fid: nat) {
    forall s :: s in c.others && s.paired ==> s.topic in e.pairs && fid in e.pairs[s.topic]
  }

  lemma MatchedIs(c: Config, e: Episode, f: Sample)
    ensures Matched(c, e, f) <==> HasAnswers(c, e, f.fid)
  {
    if HasAnswers(c, e, f.fid) {
      assert forall s :: s in c.others ==> Answered(s, e, f.fid);
    } else {
      var s :| s in c.others && s.paired && !(s.topic in e.pairs && f.fid in e.pairs[s.topic]);
      assert !Answered(s, e, f.fid);
    }
  }

  /** Every window source holds a sample no further from this stamp than one of its declared periods, plus 5 ms. */
  ghost predicate InTolerance(c: Config, e: Episode, ts: int) {
    forall s :: s in c.others && !s.paired ==>
      s.topic in e.cache && Within(s.rateHz, e.cache[s.topic].ts - ts)
  }

  ghost predicate Within(rateHz: Rate, late: int) {
    var tol := 1000000000.0 / rateHz + 5000000.0;
    -tol <= late as real <= tol
  }

  lemma WindowIs(c: Config, e: Episode, ts: int)
    ensures AllInWindow(c, e, ts) <==> InTolerance(c, e, ts)
  {
    forall s | s in c.others && !s.paired && s.topic in e.cache
      ensures Near(s, e.cache[s.topic].ts, ts) <==> Within(s.rateHz, e.cache[s.topic].ts - ts)
    {
      NearWithin(s, e.cache[s.topic].ts, ts);
    }
    hide Near, Within;
    if InTolerance(c, e, ts) {
      assert forall s :: s in c.others ==> InWindow(s, e, ts);
    } else {
      var s :| s in c.others && !s.paired && !(s.topic in e.cache && Within(s.rateHz, e.cache[s.topic].ts - ts));
      assert !InWindow(s, e, ts);
    }
  }

  lemma NearWithin(s: Source, sampleTs: int, ts: int)
    ensures Near(s, sampleTs, ts) <==> Within(s.rateHz, sampleTs - ts)
  {
    NearMeans(s, sampleTs, ts);
    var d := sampleTs - ts;
    assert Abs(d) as real == if d < 0 then -(d as real) else d as real;
  }

  /** No holes. The clock frames not stamped before the fence that the grid keeps are the leading-edge
      skips followed by the rows' frames: from the first row on, a kept frame is always a row. */
  lemma NoHoles(c: Config, e: Episode)
    requires Sound(c, e)
    ensures var kept := Kept(e.period, NotBefore(e.t0, Frames(e.log.consumed)));
            var skips := |Of(e.log.consumed, Skipped)|;
            && |e.rows| + skips == |kept|
            && (forall i :: 0 <= i < |e.rows| ==> Aligned(c, e.log.delivered, e.rows[i], kept[skips + i]))
            && (AllPaired(c) ==> skips == 0)
  {
    hide Kept, NotBefore, Of, Frames, Cursor, Aligned, CachesSound, FateFits, Ordered, InOrder;
    var skipped, recorded := Of(e.log.consumed, Skipped), Of(e.log.consumed, Recorded);
    assert Kept(e.period, NotBefore(e.t0, Frames(e.log.consumed))) == skipped + recorded;
    AlignedToSuffix(c, e.log.delivered, e.rows, skipped, recorded);
  }

  lemma AlignedToSuffix(c: Config, delivered: set<(Topic, Sample)>, rows: seq<Row>, before: seq<Sample>,
                        frames: seq<Sample>)
    requires AllAligned(c, delivered, rows, frames)
    ensures forall i :: 0 <= i < |rows| ==> Aligned(c, delivered, rows[i], (before + frames)[|before| + i])
  {
    forall i | 0 <= i < |rows|
      ensures Aligned(c, delivered, rows[i], (before + frames)[|before| + i])
    {
      assert (before + frames)[|before| + i] == frames[i];
    }
  }
}
