/** The paired-answer cache against the queues that feed it, over every interleaving.

    Publishers push clock frames and answers at any moment, also between the steps of a pass.
    The recorder drains one source at a time and the clock last. Queues are CLOCK_BUFFER deep and drop
    their oldest entry when full. Clock ids rise, and an answer only names a frame already published.
    Then the cache, which evicts its smallest id, never evicts the answer to a frame that can still
    be recorded. */
module Pairing {
  import opened Basics
  import opened CaptureEngine
  import opened Passes

  datatype World = World(
    published: seq<Sample>,        // every clock frame ever published
    since: seq<Sample>,            // those published since the clock queue was last drained
    clockQueue: seq<Sample>,
    answerQueues: seq<seq<Sample>>, // one per other source
    phase: nat,                    // sources already drained in the current pass
    e: Episode)

  datatype Step =
    | Publish(f: Sample)
    | Answer(i: nat, a: Sample)
    | DrainSource
    | DrainClock

  function Depth(s: Source): nat {
    if s.paired then CLOCK_BUFFER else 1
  }

  function Ids(frames: seq<Sample>): set<nat> {
    if frames == [] then {} else Ids(Init(frames)) + {Last(frames).fid}
  }

  lemma {:induction false} IdsHas(frames: seq<Sample>, i: nat)
    requires i < |frames|
    ensures frames[i].fid in Ids(frames)
    decreases |frames|
  {
    if i < |frames| - 1 {
      IdsHas(Init(frames), i);
    }
  }

  lemma {:induction false} IdsFind(frames: seq<Sample>, k: nat) returns (i: nat)
    requires k in Ids(frames)
    ensures i < |frames| && frames[i].fid == k
  {
    if Last(frames).fid == k {
      i := |frames| - 1;
    } else {
      i := IdsFind(Init(frames), k);
    }
  }

  lemma IdsSnoc(frames: seq<Sample>, f: Sample)
    ensures Ids(frames + [f]) == Ids(frames) + {f.fid}
  {
    SnocParts(frames, f);
  }

  lemma {:induction false} IdsOfConcat(a: seq<Sample>, b: seq<Sample>)
    ensures Ids(a + b) == Ids(a) + Ids(b)
  {
    if b == [] {
      assert a + b == a;
    } else {
      IdsOfConcat(a, Init(b));
      AppendSnoc(a, b);
      IdsSnoc(a + Init(b), Last(b));
    }
  }

  lemma {:induction false} IdsCount(frames: seq<Sample>)
    ensures |Ids(frames)| <= |frames|
  {
    if frames != [] {
      IdsCount(Init(frames));
    }
  }

  ghost predicate Enabled(c: Config, w: World, step: Step) {
    match step
    case Publish(f) => w.published == [] || Last(w.published).fid < f.fid
    case Answer(i, a) => i < |c.others| && (c.others[i].paired ==> a.fid in Ids(w.published))
    case DrainSource => w.phase < |c.others|
    case DrainClock => w.phase == |c.others| && Pump(c, Enqueue(w.e, w.clockQueue)).Going?
  }

  function Next(c: Config, w: World, step: Step): World
    requires |w.answerQueues| == |c.others| && w.phase <= |c.others|
    requires step.Answer? ==> step.i < |c.others|
    requires step.DrainSource? ==> w.phase < |c.others|
    requires step.DrainClock? ==> Pump(c, Enqueue(w.e, w.clockQueue)).Going?
  {
    match step
    case Publish(f) =>
      w.(published := w.published + [f], since := w.since + [f],
         clockQueue := Tail(w.clockQueue + [f], CLOCK_BUFFER))
    case Answer(i, a) =>
      w.(answerQueues := w.answerQueues[i := Tail(w.answerQueues[i] + [a], Depth(c.others[i]))])
    case DrainSource =>
      w.(e := Refresh(c.others[w.phase], w.e, w.answerQueues[w.phase]),
         answerQueues := w.answerQueues[w.phase := []],
         phase := w.phase + 1)
    case DrainClock =>
      w.(e := Pump(c, Enqueue(w.e, w.clockQueue)).e, since := [], clockQueue := [], phase := 0)
  }

  ghost predicate Rising(frames: seq<Sample>) {
    forall i, j :: 0 <= i < j < |frames| ==> frames[i].fid < frames[j].fid
  }

  lemma {:induction false} RisingTop(frames: seq<Sample>)
    requires Rising(frames)
    ensures forall k :: k in Ids(frames) ==> k <= Last(frames).fid
  {
    if frames != [] {
      RisingTop(Init(frames));
      assert Init(frames) != [] ==> Last(Init(frames)).fid < Last(frames).fid;
    }
  }

  /** No other source shares a paired source's topic. */
  ghost predicate OwnTopics(c: Config) {
    forall i, j :: 0 <= i < |c.others| && 0 <= j < |c.others| && i != j && c.others[i].paired ==>
      c.others[i].topic != c.others[j].topic
  }

  /** At START nothing is held or deferred; the queues may already hold whatever arrived while idle. */
  ghost predicate Initial(c: Config, w: World) {
    && OwnTopics(c) && Rising(w.published)
    && |w.since| <= |w.published| && w.since == w.published[|w.published| - |w.since|..]
    && w.clockQueue == Tail(w.since, CLOCK_BUFFER)
    && |w.answerQueues| == |c.others| && w.phase == 0
    && (forall i :: 0 <= i < |c.others| ==> QueueSound(c.others[i], w.answerQueues[i], w.published))
    && w.e == Fresh(w.e.period, w.e.t0)
  }

  ghost predicate QueueSound(s: Source, queue: seq<Sample>, published: seq<Sample>) {
    && |queue| <= Depth(s)
    && (s.paired ==> Ids(queue) <= Ids(published))
  }

  /** Frames that can still be recorded: deferred, queued, or lost from the queue since the last pass. */
  function Open(w: World): seq<Sample> {
    w.e.deferred + w.since
  }

  function Above(held: map<nat, Sample>, fid: nat): set<nat> {
    set k | k in held && fid < k
  }

  ghost predicate Shape(c: Config, w: World) {
    && OwnTopics(c) && Rising(w.published)
    && |Open(w)| <= |w.published| && w.published[|w.published| - |Open(w)|..] == Open(w)
    && w.clockQueue == Tail(w.since, CLOCK_BUFFER)
    && |w.e.deferred| <= CLOCK_BUFFER
    && |w.answerQueues| == |c.others| && w.phase <= |c.others|
    && (forall i :: 0 <= i < |c.others| ==> QueueSound(c.others[i], w.answerQueues[i], w.published))
  }

  /** A paired source's held answers name published frames, at most one queue's worth of them newer than the
      last clock drain (none if the source has yet to be drained in this pass); and every answer delivered
      for an open frame is still held. */
  ghost predicate HeldSound(s: Source, w: World, drained: bool) {
    var held := HeldFor(w.e, s.topic);
    && held.Keys <= Ids(w.published)
    && |held.Keys * Ids(w.since)| <= (if drained then CLOCK_BUFFER else 0)
    && forall x :: (s.topic, x) in w.e.log.delivered ==>
         x.fid in Ids(w.published) && (x.fid in Ids(Open(w)) ==> x.fid in held)
  }

  ghost predicate Inv(c: Config, w: World) {
    && Shape(c, w)
    && forall i :: 0 <= i < |c.others| && c.others[i].paired ==> HeldSound(c.others[i], w, i < w.phase)
  }

  lemma InitialHeld(c: Config, w: World, s: Source)
    requires Initial(c, w)
    ensures HeldSound(s, w, false)
  {
    assert HeldFor(w.e, s.topic).Keys * Ids(w.since) == {};
  }

  lemma InitialShape(c: Config, w: World)
    requires Initial(c, w)
    ensures Shape(c, w)
  {
    assert w.e.deferred == [] && Open(w) == [] + w.since == w.since;
  }

  lemma InitialInv(c: Config, w: World)
    requires Initial(c, w)
    ensures Inv(c, w)
  {
    InitialShape(c, w);
    forall i | 0 <= i < |c.others| && c.others[i].paired
      ensures HeldSound(c.others[i], w, false)
    {
      InitialHeld(c, w, c.others[i]);
    }
  }

  // ----- Counting -----------------------------------------------------------------------------

  /** In a rising sequence, an id above that of a suffix's member is in that suffix, after its first. */
  lemma NewerIsLater(all: seq<Sample>, suffix: seq<Sample>, fid: nat, k: nat)
    requires Rising(all) && |suffix| <= |all| && all[|all| - |suffix|..] == suffix
    requires fid in Ids(suffix) && fid < k && k in Ids(all)
    ensures suffix != [] && k in Ids(suffix[1..])
  {
    hide Ids;
    var lost := |all| - |suffix|;
    var i := IdsFind(suffix, fid);
    var p := IdsFind(all, k);
    assert suffix[i] == all[lost + i];
    assert lost + i < p;
    assert suffix[1..][p - lost - 1] == all[p];
    IdsHas(suffix[1..], p - lost - 1);
  }

  function Behind(frames: seq<Sample>): seq<Sample> {
    if frames == [] then [] else frames[1..]
  }

  lemma IdsBehind(deferred: seq<Sample>, since: seq<Sample>)
    ensures Ids(Behind(deferred + since)) <= Ids(Behind(deferred)) + Ids(since)
  {
    if deferred != [] {
      assert Behind(deferred + since) == Behind(deferred) + since;
      IdsOfConcat(Behind(deferred), since);
    } else if since != [] {
      assert deferred + since == since == [since[0]] + since[1..];
      IdsOfConcat([since[0]], since[1..]);
    }
  }

  /** Answers held above an open frame's id: one per later deferred frame, plus one queue's worth. */
  lemma AboveIsSmall(c: Config, s: Source, w: World, drained: bool, fid: nat)
    requires Shape(c, w) && HeldSound(s, w, drained) && fid in Ids(Open(w))
    ensures |Above(HeldFor(w.e, s.topic), fid)| < CLOCK_BUFFER + if drained then CLOCK_BUFFER else 1
  {
    hide Ids, HeldFor, QueueSound, OwnTopics, Rising;
    var held := HeldFor(w.e, s.topic);
    var recent := held.Keys * Ids(w.since);
    var rest := Behind(w.e.deferred);
    IdsBehind(w.e.deferred, w.since);
    forall k | k in Above(held, fid)
      ensures k in Ids(rest) + recent
    {
      NewerIsLater(w.published, Open(w), fid, k);
    }
    IdsCount(rest);
    Subset(Above(held, fid), Ids(rest) + recent);
  }

  lemma {:induction false} Subset<T>(a: set<T>, b: set<T>)
    requires a <= b
    ensures |a| <= |b|
  {
    if a != {} {
      var x :| x in a;
      Subset(a - {x}, b - {x});
    }
  }

  /** What is left when small ids go first: an id with fewer than PAIR_CACHE larger ones held stays. */
  lemma {:induction false} TrimSpares(held: map<nat, Sample>, fid: nat)
    requires fid in held && |Above(held, fid)| < PAIR_CACHE
    ensures fid in Trim(held)
    decreases |held|
  {
    if |held| > PAIR_CACHE {
      assert held.Keys != {};
      var m := Least(held.Keys);
      assert (held - {m}).Keys == held.Keys - {m};
      assert m == fid ==> held.Keys == Above(held, fid) + {fid};
      assert Above(held - {m}, fid) == Above(held, fid);
      TrimSpares(held - {m}, fid);
    }
  }

  // ----- Every step keeps the invariant -------------------------------------------------------

  ghost predicate NextRel(c: Config, w: World, step: Step, w': World) {
    && |w.answerQueues| == |c.others| && w.phase <= |c.others|
    && Enabled(c, w, step) && w' == Next(c, w, step)
  }

  lemma RisingSnoc(frames: seq<Sample>, f: Sample)
    requires Rising(frames) && (frames != [] ==> Last(frames).fid < f.fid)
    ensures Rising(frames + [f])
  {
  }

  lemma SuffixSnoc<T>(all: seq<T>, suffix: seq<T>, x: T)
    requires |suffix| <= |all| && all[|all| - |suffix|..] == suffix
    ensures (all + [x])[|all| - |suffix|..] == suffix + [x]
  {
  }

  lemma TailPush<T>(s: seq<T>, x: T, n: nat)
    requires n > 0
    ensures Tail(Tail(s, n) + [x], n) == Tail(s + [x], n)
  {
  }

  lemma PublishShape(c: Config, w: World, f: Sample)
    requires Shape(c, w) && Enabled(c, w, Publish(f))
    ensures Shape(c, Next(c, w, Publish(f)))
  {
    hide Ids, Tail, Rising;
    var w' := Next(c, w, Publish(f));
    assert Open(w') == Open(w) + [f] by { Assoc(w.e.deferred, w.since, [f]); }
    IdsSnoc(w.published, f);
    RisingSnoc(w.published, f);
    SuffixSnoc(w.published, Open(w), f);
    TailPush(w.since, f, CLOCK_BUFFER);
    forall i | 0 <= i < |c.others|
      ensures QueueSound(c.others[i], w'.answerQueues[i], w'.published)
    {
      assert QueueSound(c.others[i], w.answerQueues[i], w.published);
    }
  }

  lemma PublishIds(c: Config, w: World, f: Sample)
    requires Shape(c, w) && Enabled(c, w, Publish(f))
    ensures f.fid !in Ids(w.published)
    ensures var w' := Next(c, w, Publish(f));
            && w'.e == w.e && Ids(w'.published) == Ids(w.published) + {f.fid}
            && Ids(w'.since) == Ids(w.since) + {f.fid} && Ids(Open(w')) == Ids(Open(w)) + {f.fid}
  {
    hide Ids, Tail;
    assert Open(Next(c, w, Publish(f))) == Open(w) + [f];
    IdsSnoc(w.published, f);
    IdsSnoc(w.since, f);
    IdsSnoc(Open(w), f);
    RisingTop(w.published);
    assert w.published == [] ==> Ids(w.published) == {} by { NoIds(); }
  }

  lemma NoIds()
    ensures Ids([]) == {}
  {
  }

  /** A frame with a new id changes nothing about what is held. */
  lemma NewFrameHeld(s: Source, w: World, w': World, fid: nat, drained: bool)
    requires HeldSound(s, w, drained) && fid !in Ids(w.published) && w'.e == w.e
    requires Ids(w'.published) == Ids(w.published) + {fid} && Ids(w'.since) == Ids(w.since) + {fid}
    requires Ids(Open(w')) == Ids(Open(w)) + {fid}
    ensures HeldSound(s, w', drained)
  {
    hide Ids, Open, HeldFor;
    var held := HeldFor(w.e, s.topic);
    NewElement(held.Keys, Ids(w.published), Ids(w.since), fid);
    forall x | (s.topic, x) in w'.e.log.delivered
      ensures x.fid in Ids(w'.published) && (x.fid in Ids(Open(w')) ==> x.fid in held)
    {
      assert (s.topic, x) in w.e.log.delivered && x.fid in Ids(w.published);
    }
  }

  lemma NewElement<T>(held: set<T>, all: set<T>, some: set<T>, x: T)
    requires held <= all && x !in all
    ensures held <= all + {x} && held * (some + {x}) == held * some
  {
  }

  lemma PublishHeld(c: Config, w: World, f: Sample, s: Source, drained: bool)
    requires Shape(c, w) && Enabled(c, w, Publish(f)) && HeldSound(s, w, drained)
    ensures HeldSound(s, Next(c, w, Publish(f)), drained)
  {
    hide HeldSound, Ids, Open, Next;
    PublishIds(c, w, f);
    NewFrameHeld(s, w, Next(c, w, Publish(f)), f.fid, drained);
  }

  lemma PushedIds(queue: seq<Sample>, a: Sample, depth: nat)
    ensures |Tail(queue + [a], depth)| <= depth
    ensures Ids(Tail(queue + [a], depth)) <= Ids(queue) + {a.fid}
  {
    IdsSnoc(queue, a);
    var pushed, kept := queue + [a], Tail(queue + [a], depth);
    assert pushed == pushed[..|pushed| - |kept|] + kept;
    IdsOfConcat(pushed[..|pushed| - |kept|], kept);
  }

  lemma AnswerShape(c: Config, w: World, i: nat, a: Sample)
    requires Shape(c, w) && Enabled(c, w, Answer(i, a))
    ensures Shape(c, Next(c, w, Answer(i, a)))
  {
    hide Ids, Tail;
    var w' := Next(c, w, Answer(i, a));
    PushedIds(w.answerQueues[i], a, Depth(c.others[i]));
    forall j | 0 <= j < |c.others|
      ensures QueueSound(c.others[j], w'.answerQueues[j], w'.published)
    {
      assert QueueSound(c.others[j], w.answerQueues[j], w.published);
    }
  }

  /** The world in which the drained answers are held and nothing has been evicted yet. */
  function Untrimmed(c: Config, w: World): World
    requires |w.answerQueues| == |c.others| && w.phase < |c.others|
  {
    var s, got := c.others[w.phase], w.answerQueues[w.phase];
    w.(e := w.e.(pairs := w.e.pairs[s.topic := Hold(HeldFor(w.e, s.topic), got)],
                 log := w.e.log.(delivered := w.e.log.delivered + Delivery(s, got))))
  }

  lemma {:induction false} HoldKeys(held: map<nat, Sample>, answers: seq<Sample>)
    ensures Hold(held, answers).Keys == held.Keys + Ids(answers)
  {
    if answers != [] {
      HoldKeys(held, Init(answers));
    }
  }

  lemma UntrimmedHeld(c: Config, w: World)
    requires Inv(c, w) && w.phase < |c.others| && c.others[w.phase].paired
    ensures HeldSound(c.others[w.phase], Untrimmed(c, w), true)
  {
    var s, got := c.others[w.phase], w.answerQueues[w.phase];
    var w1 := Untrimmed(c, w);
    assert Open(w1) == Open(w);
    assert HeldSound(s, w, false) && QueueSound(s, got, w.published);
    HoldKeys(HeldFor(w.e, s.topic), got);
    assert HeldFor(w.e, s.topic).Keys * Ids(w.since) == {};
    IdsCount(got);
    Subset(HeldFor(w1.e, s.topic).Keys * Ids(w1.since), Ids(got));
    forall x | (s.topic, x) in w1.e.log.delivered && (s.topic, x) !in w.e.log.delivered
      ensures x.fid in Ids(got)
    {
      var i :| 0 <= i < |got| && got[i] == x;
      IdsHas(got, i);
    }
  }

  lemma UntrimmedSound(c: Config, w: World)
    requires Inv(c, w) && w.phase < |c.others| && c.others[w.phase].paired
    ensures Shape(c, Untrimmed(c, w)) && HeldSound(c.others[w.phase], Untrimmed(c, w), true)
    ensures Open(Untrimmed(c, w)) == Open(w)
  {
    hide HeldSound, QueueSound;
    UntrimmedHeld(c, w);
    assert Open(Untrimmed(c, w)) == Open(w);
  }

  lemma TrimmedNext(c: Config, w: World)
    requires |w.answerQueues| == |c.others| && w.phase < |c.others| && c.others[w.phase].paired
    ensures var t := c.others[w.phase].topic;
            HeldFor(Next(c, w, DrainSource).e, t) == Trim(HeldFor(Untrimmed(c, w).e, t))
  {
  }

  /** Evicting smallest ids spares every open frame's answer. */
  lemma EvictionSparesOpen(c: Config, w: World, fid: nat)
    requires Inv(c, w) && w.phase < |c.others| && c.others[w.phase].paired && fid in Ids(Open(w))
    requires fid in HeldFor(Untrimmed(c, w).e, c.others[w.phase].topic)
    ensures fid in HeldFor(Next(c, w, DrainSource).e, c.others[w.phase].topic)
  {
    var s := c.others[w.phase];
    UntrimmedSound(c, w);
    AboveIsSmall(c, s, Untrimmed(c, w), true, fid);
    TrimmedNext(c, w);
    TrimSpares(HeldFor(Untrimmed(c, w).e, s.topic), fid);
  }

  lemma DrainedSourceSound(c: Config, w: World)
    requires Inv(c, w) && w.phase < |c.others| && c.others[w.phase].paired
    ensures HeldSound(c.others[w.phase], Next(c, w, DrainSource), true)
  {
    var s := c.others[w.phase];
    var w1, w' := Untrimmed(c, w), Next(c, w, DrainSource);
    UntrimmedSound(c, w);
    assert Open(w1) == Open(w') == Open(w);
    Subset(HeldFor(w'.e, s.topic).Keys * Ids(w'.since), HeldFor(w1.e, s.topic).Keys * Ids(w1.since));
    forall x | (s.topic, x) in w'.e.log.delivered && x.fid in Ids(Open(w'))
      ensures x.fid in HeldFor(w'.e, s.topic)
    {
      EvictionSparesOpen(c, w, x.fid);
    }
  }

  lemma DrainSourceShape(c: Config, w: World)
    requires Shape(c, w) && w.phase < |c.others|
    ensures Shape(c, Next(c, w, DrainSource))
  {
    var w' := Next(c, w, DrainSource);
    assert Open(w') == Open(w);
    assert Ids([]) == {};
    forall j | 0 <= j < |c.others|
      ensures QueueSound(c.others[j], w'.answerQueues[j], w'.published)
    {
      assert QueueSound(c.others[j], w.answerQueues[j], w.published);
    }
  }

  lemma OtherSourceHeld(c: Config, w: World, j: nat, drained: bool)
    requires Shape(c, w) && w.phase < |c.others| && j < |c.others| && j != w.phase && c.others[j].paired
    requires HeldSound(c.others[j], w, drained)
    ensures HeldSound(c.others[j], Next(c, w, DrainSource), drained)
  {
    var w' := Next(c, w, DrainSource);
    assert Open(w') == Open(w);
    assert HeldFor(w'.e, c.others[j].topic) == HeldFor(w.e, c.others[j].topic);
  }

  lemma TailOfTail<T>(a: seq<T>, b: seq<T>, n: nat, k: nat)
    requires k <= n && k <= |a| + |Tail(b, n)|
    ensures Tail(a + Tail(b, n), k) == Tail(a + b, k)
  {
  }

  lemma TailIs<T>(s: seq<T>, d: seq<T>)
    requires |d| <= |s| && d == s[|s| - |d|..]
    ensures d == Tail(s, |d|)
  {
  }

  lemma TailWithin<T>(s: seq<T>, n: nat)
    requires n <= |s|
    ensures Tail(s, n) == s[|s| - n..]
  {
  }

  lemma TailShorter<T>(s: seq<T>, n: nat)
    ensures |Tail(s, n)| <= |s|
  {
  }

  /** After the clock is drained the deferred frames are the last of the open ones. */
  lemma DrainClockTail(c: Config, w: World)
    requires Shape(c, w) && Enabled(c, w, DrainClock)
    ensures var d := Next(c, w, DrainClock).e.deferred;
            |d| <= CLOCK_BUFFER && |d| <= |Open(w)| && d == Open(w)[|Open(w)| - |d|..]
  {
    hide QueueSound, Tail;
    var d := Next(c, w, DrainClock).e.deferred;
    PumpShape(c, Enqueue(w.e, w.clockQueue));
    hide Pump;
    TailIs(w.e.deferred + w.clockQueue, d);
    TailShorter(w.since, CLOCK_BUFFER);
    TailOfTail(w.e.deferred, w.since, CLOCK_BUFFER, |d|);
    TailWithin(Open(w), |d|);
  }

  lemma DrainClockShape(c: Config, w: World)
    requires Shape(c, w) && Enabled(c, w, DrainClock)
    ensures Shape(c, Next(c, w, DrainClock))
  {
    var w' := Next(c, w, DrainClock);
    var d := w'.e.deferred;
    DrainClockTail(c, w);
    assert Open(w') == d;
    assert w.published[|w.published| - |d|..] == w.published[|w.published| - |Open(w)|..][|Open(w)| - |d|..];
  }

  lemma DrainClockHeld(c: Config, w: World, s: Source)
    requires Shape(c, w) && Enabled(c, w, DrainClock) && HeldSound(s, w, true)
    ensures HeldSound(s, Next(c, w, DrainClock), false)
  {
    var w' := Next(c, w, DrainClock);
    var d := w'.e.deferred;
    DrainClockTail(c, w);
    PumpShape(c, Enqueue(w.e, w.clockQueue));
    assert Open(w') == d;
    assert Open(w) == Open(w)[..|Open(w)| - |d|] + d;
    IdsOfConcat(Open(w)[..|Open(w)| - |d|], d);
    assert HeldFor(w'.e, s.topic).Keys * Ids(w'.since) == {};
  }

  lemma StepShape(c: Config, w: World, step: Step)
    requires Shape(c, w) && Enabled(c, w, step)
    ensures Shape(c, Next(c, w, step))
  {
    match step
    case Publish(f) => PublishShape(c, w, f);
    case Answer(i, a) => AnswerShape(c, w, i, a);
    case DrainSource => DrainSourceShape(c, w);
    case DrainClock => DrainClockShape(c, w);
  }

  lemma StepHeld(c: Config, w: World, step: Step, j: nat)
    requires Inv(c, w) && Enabled(c, w, step) && j < |c.others| && c.others[j].paired
    ensures HeldSound(c.others[j], Next(c, w, step), j < Next(c, w, step).phase)
  {
    var s := c.others[j];
    assert HeldSound(s, w, j < w.phase);
    match step
    case Publish(f) => PublishHeld(c, w, f, s, j < w.phase);
    case Answer(i, a) =>
    case DrainSource =>
      if j == w.phase {
        DrainedSourceSound(c, w);
      } else {
        OtherSourceHeld(c, w, j, j < w.phase);
      }
    case DrainClock => DrainClockHeld(c, w, s);
  }

  lemma StepInv(c: Config, w: World, step: Step)
    requires Inv(c, w) && Enabled(c, w, step)
    ensures Inv(c, Next(c, w, step))
  {
    hide HeldSound, Next, OwnTopics, Rising, QueueSound, Pump, Tail, Ids;
    StepShape(c, w, step);
    forall j | 0 <= j < |c.others| && c.others[j].paired
      ensures HeldSound(c.others[j], Next(c, w, step), j < Next(c, w, step).phase)
    {
      StepHeld(c, w, step, j);
    }
  }

  // ----- Over every run -----------------------------------------------------------------------

  ghost predicate IsRun(c: Config, ws: seq<World>, steps: seq<Step>) {
    && |ws| == |steps| + 1 && Initial(c, ws[0])
    && forall i :: 0 <= i < |steps| ==> NextRel(c, ws[i], steps[i], ws[i + 1])
  }

  lemma {:induction false} RunInv(c: Config, ws: seq<World>, steps: seq<Step>, i: nat)
    requires IsRun(c, ws, steps) && i < |ws|
    ensures Inv(c, ws[i])
  {
    if i == 0 {
      InitialInv(c, ws[0]);
    } else {
      RunInv(c, ws, steps, i - 1);
      assert NextRel(c, ws[i - 1], steps[i - 1], ws[i - 1 + 1]);
      StepInv(c, ws[i - 1], steps[i - 1]);
    }
  }

  /** The step drains paired source s, and the answer to `fid` is not held afterwards. */
  ghost predicate Evicts(c: Config, w: World, step: Step, w': World, s: Source, fid: nat) {
    && NextRel(c, w, step, w') && step.DrainSource? && s == c.others[w.phase] && s.paired
    && fid in Hold(HeldFor(w.e, s.topic), w.answerQueues[w.phase])
    && fid !in HeldFor(w'.e, s.topic)
  }

  /** Whenever a source is drained, no answer that is evicted belongs to a deferred or queued frame. */
  lemma NoNeededAnswerEvicted(c: Config, ws: seq<World>, steps: seq<Step>, i: nat, s: Source, fid: nat)
    requires IsRun(c, ws, steps) && i < |steps| && Evicts(c, ws[i], steps[i], ws[i + 1], s, fid)
    ensures forall f :: f in ws[i].e.deferred || f in ws[i].clockQueue ==> f.fid != fid
  {
    RunInv(c, ws, steps, i);
    var w := ws[i];
    if fid in Ids(Open(w)) {
      EvictionSparesOpen(c, w, fid);
    }
    forall f | f in w.e.deferred || f in w.clockQueue
      ensures f.fid in Ids(Open(w))
    {
      InOpen(c, w, f);
    }
  }

  lemma InOpen(c: Config, w: World, f: Sample)
    requires Shape(c, w) && (f in w.e.deferred || f in w.clockQueue)
    ensures f.fid in Ids(Open(w))
  {
    assert f in Open(w);
    var i :| 0 <= i < |Open(w)| && Open(w)[i] == f;
    IdsHas(Open(w), i);
  }

  lemma UnansweredIsUndelivered(c: Config, w: World, i: nat, f: Sample)
    requires Inv(c, w) && i < |c.others| && !Answered(c.others[i], w.e, f.fid)
    requires f in w.e.deferred || f in w.clockQueue
    ensures forall x :: (c.others[i].topic, x) in w.e.log.delivered ==> x.fid != f.fid
  {
    InOpen(c, w, f);
    assert HeldSound(c.others[i], w, i < w.phase);
    assert f.fid !in HeldFor(w.e, c.others[i].topic);
  }

  /** Every paired source has delivered an answer to this id since START. */
  ghost predicate Delivered(c: Config, e: Episode, fid: nat) {
    forall s :: s in c.others && s.paired ==> DeliveredBy(s, e, fid)
  }

  ghost predicate DeliveredBy(s: Source, e: Episode, fid: nat) {
    exists x :: (s.topic, x) in e.log.delivered && x.fid == fid
  }

  /** For a frame that can still be recorded, having its answers and having been delivered them are the same. */
  lemma MatchedIffDelivered(c: Config, w: World, f: Sample)
    requires Inv(c, w) && CachesSound(w.e) && (f in w.e.deferred || f in w.clockQueue)
    ensures Matched(c, w.e, f) <==> Delivered(c, w.e, f.fid)
  {
    hide Inv;
    forall s | s in c.others && s.paired
      ensures Answered(s, w.e, f.fid) <==> DeliveredBy(s, w.e, f.fid)
    {
      if Answered(s, w.e, f.fid) {
        assert (s.topic, w.e.pairs[s.topic][f.fid]) in w.e.log.delivered;
      } else {
        var i :| 0 <= i < |c.others| && c.others[i] == s;
        UnansweredIsUndelivered(c, w, i, f);
      }
    }
  }

  lemma StepSound(c: Config, w: World, step: Step)
    requires Shape(c, w) && Enabled(c, w, step) && Sound(c, w.e)
    ensures Sound(c, Next(c, w, step).e)
  {
    hide Sound, Pump, Refresh, Enqueue;
    match step
    case Publish(f) =>
    case Answer(i, a) =>
    case DrainSource => RefreshSound(c, c.others[w.phase], w.e, w.answerQueues[w.phase]);
    case DrainClock =>
      EnqueueSound(c, w.e, w.clockQueue);
      PumpSound(c, Enqueue(w.e, w.clockQueue));
  }

  lemma {:induction false} WorldSound(c: Config, ws: seq<World>, steps: seq<Step>, i: nat)
    requires IsRun(c, ws, steps) && i < |ws|
    ensures Sound(c, ws[i].e)
  {
    hide Sound, Next;
    if i == 0 {
      FreshSound(c, ws[0].e.period, ws[0].e.t0);
    } else {
      WorldSound(c, ws, steps, i - 1);
      RunInv(c, ws, steps, i - 1);
      assert NextRel(c, ws[i - 1], steps[i - 1], ws[i - 1 + 1]);
      StepSound(c, ws[i - 1], steps[i - 1]);
    }
  }

  /** The "never matched" abort tells the truth, and tells it exactly when it should: queued frame m is the first to
      which some paired source delivered no answer since START; the abort happens, and names it, exactly if the frames
      before it pass and more than a queue's worth is left from it on. */
  lemma NeverMatchedIsTrue(c: Config, ws: seq<World>, steps: seq<Step>, fid: nat) returns (m: nat)
    requires IsRun(c, ws, steps) && Last(ws).phase == |c.others|
    ensures var w := Last(ws); var e := Enqueue(w.e, w.clockQueue); var queue := w.e.deferred + w.clockQueue;
            && m <= |queue| == |e.deferred|
            && (forall i :: 0 <= i < m ==> Delivered(c, w.e, queue[i].fid))
            && (m < |queue| ==> !Delivered(c, w.e, queue[m].fid))
            && (Pump(c, e) == Aborted(NeverMatched(fid)) <==>
                  Pump(c, With(e, queue[..m])).Going? && |queue| - m > CLOCK_BUFFER && queue[m].fid == fid)
  {
    hide Inv, Pump, Matched, Delivered, Sound;
    var w := Last(ws);
    RunInv(c, ws, steps, |ws| - 1);
    WorldSound(c, ws, steps, |ws| - 1);
    assert CachesSound(w.e) by { SoundCaches(c, w.e); }
    var e := Enqueue(w.e, w.clockQueue);
    m := Answerable(c, e, e.deferred);
    NeverMatchedIff(c, e, fid);
    forall i | 0 <= i < |e.deferred|
      ensures Matched(c, e, e.deferred[i]) <==> Delivered(c, w.e, e.deferred[i].fid)
    {
      MatchedDepends(c, w.e, e, e.deferred[i]);
      MatchedIffDelivered(c, w, e.deferred[i]);
    }
  }

  lemma SoundCaches(c: Config, e: Episode)
    requires Sound(c, e)
    ensures CachesSound(e)
  {
  }

  // ----- A pass of the world is one capture ---------------------------------------------------

  /** No clock drain between states i and j: one pass, or the beginning of one. */
  ghost predicate WithinPass(steps: seq<Step>, i: nat, j: nat)
    requires i <= j <= |steps|
  {
    forall k :: i <= k < j ==> !steps[k].DrainClock?
  }

  lemma StepReads(c: Config, w: World, step: Step)
    requires |w.answerQueues| == |c.others| && w.phase <= |c.others| && Enabled(c, w, step) && !step.DrainClock?
    ensures var w' := Next(c, w, step);
            if step.DrainSource? then
              w'.phase == w.phase + 1 && w'.e == Refresh(c.others[w.phase], w.e, w.answerQueues[w.phase])
            else w'.phase == w.phase && w'.e == w.e
  {
  }

  lemma RefreshNext(others: seq<Source>, n: nat, e: Episode, readings: seq<seq<Sample>>, got: seq<Sample>)
    requires n < |others| && |readings| == n
    ensures RefreshAll(others[..n + 1], e, readings + [got]) ==
            Refresh(others[n], RefreshAll(others[..n], e, readings), got)
  {
    SnocParts(readings, got);
    assert others[..n + 1] == others[..n] + [others[n]];
    SnocParts(others[..n], others[n]);
  }

  /** What publishers do between the drains of one pass only decides what each drain reads: the episode is that
      of refreshing the sources drained so far, in order, with those readings. */
  lemma {:induction false} PassReadings(c: Config, ws: seq<World>, steps: seq<Step>, i: nat, j: nat)
      returns (readings: seq<seq<Sample>>)
    requires IsRun(c, ws, steps) && i <= j < |ws| && ws[i].phase == 0 && WithinPass(steps, i, j)
    ensures |readings| == ws[j].phase <= |c.others|
    ensures ws[j].e == RefreshAll(c.others[..ws[j].phase], ws[i].e, readings)
    decreases j
  {
    hide Next, Refresh, RefreshAll, Initial;
    readings := [];
    if i == j {
      assert RefreshAll([], ws[i].e, []) == ws[i].e by { RefreshNone(ws[i].e); }
    } else {
      readings := PassReadings(c, ws, steps, i, j - 1);
      var w := ws[j - 1];
      assert NextRel(c, w, steps[j - 1], ws[j - 1 + 1]);
      StepReads(c, w, steps[j - 1]);
      if steps[j - 1].DrainSource? {
        RefreshNext(c.others, w.phase, ws[i].e, readings, w.answerQueues[w.phase]);
        readings := readings + [w.answerQueues[w.phase]];
      }
    }
  }

  lemma RefreshNone(e: Episode)
    ensures RefreshAll([], e, []) == e
  {
  }

  /** So a whole pass, however the publishers interleave with it, is one `Capture`, whatever comes of it. */
  lemma PassIsCapture(c: Config, ws: seq<World>, steps: seq<Step>, i: nat, j: nat) returns (readings: seq<seq<Sample>>)
    requires IsRun(c, ws, steps) && i <= j < |ws| && ws[i].phase == 0 && WithinPass(steps, i, j)
    requires ws[j].phase == |c.others|
    ensures |readings| == |c.others|
    ensures Capture(c, ws[i].e, readings, ws[j].clockQueue) == Pump(c, Enqueue(ws[j].e, ws[j].clockQueue))
    ensures j < |steps| && steps[j].DrainClock? ==>
              Capture(c, ws[i].e, readings, ws[j].clockQueue) == Going(ws[j + 1].e)
  {
    readings := PassReadings(c, ws, steps, i, j);
    if j < |steps| {
      assert NextRel(c, ws[j], steps[j], ws[j + 1]);
    }
    assert c.others[..|c.others|] == c.others;
  }
}
