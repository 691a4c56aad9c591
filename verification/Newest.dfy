/** What an episode holds for each source is the newest it was offered, and rows are filled with that. */
module Newest {
  import opened Basics
  import opened CaptureEngine

  /** What a drained queue offers to clock frame `fid`: its newest sample if the source is a window source, its
      newest answer to that id if it is paired. */
  function Offered(paired: bool, got: seq<Sample>, fid: nat): (r: Option<Sample>)
    ensures !paired ==> r == if got == [] then None else Some(got[|got| - 1])
    ensures paired && r.Some? ==> exists i :: LastAnswer(got, i, fid) && r.value == got[i]
    ensures paired && r.None? ==> forall i :: 0 <= i < |got| ==> got[i].fid != fid
  {
    if got == [] then None
    else if !paired then Some(Last(got))
    else
      var i := LatestAt(got, fid);
      assert i < |got| ==> LastAnswer(got, i, fid);
      if i < |got| then Some(got[i]) else None
  }

  ghost predicate LastAnswer(got: seq<Sample>, i: int, fid: nat) {
    0 <= i < |got| && got[i].fid == fid && forall j :: i < j < |got| ==> got[j].fid != fid
  }

  /** Source i is one of this kind on this topic, and its drained queue offers x. */
  ghost predicate OffersAt(others: seq<Source>, answers: seq<seq<Sample>>, i: int, s: Source, fid: nat, x: Sample) {
    && 0 <= i < |others| && i < |answers| && others[i].topic == s.topic && others[i].paired == s.paired
    && Offered(s.paired, answers[i], fid) == Some(x)
  }

  /** What the sources that share `s`'s topic and kind were offered in one pass; the last source drained wins. */
  function NewestIn(others: seq<Source>, answers: seq<seq<Sample>>, s: Source, fid: nat): (r: Option<Sample>)
    requires |answers| == |others|
    ensures r.Some? ==> exists i :: OffersAt(others, answers, i, s, fid, r.value)
                                    && forall j, x :: i < j ==> !OffersAt(others, answers, j, s, fid, x)
    ensures r.None? ==> forall i, x :: !OffersAt(others, answers, i, s, fid, x)
  {
    if others == [] then None
    else
      var last := if Last(others).topic == s.topic && Last(others).paired == s.paired
                  then Offered(s.paired, Last(answers), fid) else None;
      var r := if last.Some? then last else NewestIn(Init(others), Init(answers), s, fid);
      assert last.Some? ==> OffersAt(others, answers, |others| - 1, s, fid, last.value);
      assert forall i, x :: i < |others| - 1 ==>
               (OffersAt(others, answers, i, s, fid, x) <==> OffersAt(Init(others), Init(answers), i, s, fid, x));
      r
  }

  /** What the episode holds for a source and a clock frame's id. */
  function Held(e: Episode, s: Source, fid: nat): Option<Sample> {
    if s.paired then if s.topic in e.pairs && fid in e.pairs[s.topic] then Some(e.pairs[s.topic][fid]) else None
    else if s.topic in e.cache then Some(e.cache[s.topic]) else None
  }

  /** `after` is what was newly offered, or else what was there before. An answer may have been evicted; the newest
      sample of a window source is always there. */
  ghost predicate Newer(paired: bool, before: Option<Sample>, offered: Option<Sample>, after: Option<Sample>) {
    !paired || after.Some? ==> after == if offered.Some? then offered else before
  }

  lemma RefreshOne(o: Source, e: Episode, got: seq<Sample>, s: Source, fid: nat)
    ensures var offered := if o.topic == s.topic && o.paired == s.paired then Offered(s.paired, got, fid) else None;
            Newer(s.paired, Held(e, s, fid), offered, Held(Refresh(o, e, got), s, fid))
  {
    HoldIs(HeldFor(e, s.topic), got, fid);
  }

  /** Refreshing leaves every source with the newest it was offered. */
  lemma {:induction false} RefreshNewest(others: seq<Source>, e: Episode, answers: seq<seq<Sample>>,
                                         s: Source, fid: nat)
    requires |answers| == |others|
    ensures Newer(s.paired, Held(e, s, fid), NewestIn(others, answers, s, fid),
                  Held(RefreshAll(others, e, answers), s, fid))
  {
    hide Refresh, Held;
    if others != [] {
      RefreshNewest(Init(others), e, Init(answers), s, fid);
      RefreshOne(Last(others), RefreshAll(Init(others), e, Init(answers)), Last(answers), s, fid);
    }
  }

  // ----- Rows ---------------------------------------------------------------------------------

  /** Every feature that a source claims is what the episode holds for that source. */
  ghost predicate FilledFrom(c: Config, e: Episode, row: Row, f: Sample) {
    && row.ts == f.ts
    && forall k :: k in row.data && Claimant(c.others, k).Some? ==>
         Held(e, Claimant(c.others, k).value, f.fid) == Some(row.data[k])
  }

  lemma RowFilled(c: Config, e: Episode, f: Sample)
    requires Matched(c, e, f) && AllInWindow(c, e, f.ts)
    ensures FilledFrom(c, e, RowFor(c, e, f), f)
  {
    hide Claimant, Fill;
    forall k | k in RowFor(c, e, f).data && Claimant(c.others, k).Some?
      ensures Held(e, Claimant(c.others, k).value, f.fid) == Some(RowFor(c, e, f).data[k])
    {
      FillValues(c, f, c.others, Picks(c, e, f), k);
      var s := Claimant(c.others, k).value;
      assert Answered(s, e, f.fid) && InWindow(s, e, f.ts);
    }
  }

  /** The rows a pass adds are filled from what it holds, each for its own recorded frame. */
  ghost predicate AddsFilled(c: Config, e: Episode, from: Episode, to: Episode) {
    var a, b := Of(from.log.consumed, Recorded), Of(to.log.consumed, Recorded);
    && from.rows <= to.rows && a <= b && |to.rows| == |b|
    && forall i :: |from.rows| <= i < |to.rows| ==> FilledFrom(c, e, to.rows[i], b[i])
  }

  lemma ConsumeFills(c: Config, e: Episode)
    requires e.deferred != [] && Final(FateOf(c, e, e.deferred[0]))
    requires |e.rows| == |Of(e.log.consumed, Recorded)|
    ensures AddsFilled(c, e, e, Consume(c, e, e.deferred[0]).(deferred := e.deferred[1..]))
  {
    hide FilledFrom, RowFor, Matched, AllInWindow;
    var f := e.deferred[0];
    LogSnoc(e.log.consumed, Entry(f, FateOf(c, e, f)), e.t0);
    if FateOf(c, e, f).Recorded? {
      RowFilled(c, e, f);
    }
  }

  lemma FilledSame(c: Config, e: Episode, e': Episode, row: Row, f: Sample)
    requires e'.pairs == e.pairs && e'.cache == e.cache && FilledFrom(c, e', row, f)
    ensures FilledFrom(c, e, row, f)
  {
    hide Claimant;
  }

  lemma {:induction false} PumpFills(c: Config, e: Episode)
    requires Pump(c, e).Going? && |e.rows| == |Of(e.log.consumed, Recorded)|
    ensures AddsFilled(c, e, e, Pump(c, e).e)
    decreases |e.deferred|
  {
    hide FilledFrom, Of;
    if e.deferred != [] && Final(FateOf(c, e, e.deferred[0])) {
      ConsumeFills(c, e);
      var next := Consume(c, e, e.deferred[0]).(deferred := e.deferred[1..]);
      PumpFills(c, next);
      hide Pump, Consume, FateOf;
      var to := Pump(c, e).e;
      forall i | |e.rows| <= i < |to.rows|
        ensures FilledFrom(c, e, to.rows[i], Of(to.log.consumed, Recorded)[i])
      {
        if i >= |next.rows| {
          FilledSame(c, e, next, to.rows[i], Of(to.log.consumed, Recorded)[i]);
        }
      }
    }
  }
}
