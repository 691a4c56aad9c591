/** The logger's change detection: a polled cell is logged when its frame id differs from the last one
    seen on that topic. */
module ChangeLog {
  import opened Basics

  class Logger<T> {
    const topics: seq<string>
    var last: map<string, nat>           // topic -> frame id last seen
    var logs: map<string, seq<Cell<T>>>     // topic -> what was logged

    ghost predicate Valid()
      reads this
    {
      && (forall i, j :: 0 <= i < j < |topics| ==> topics[i] != topics[j])
      && (forall t :: t in topics ==> t in logs)
    }

    ghost function View(t: string): Seen<T>
      requires Valid() && t in topics
      reads this
    {
      Seen(if t in last then Some(last[t]) else None, logs[t])
    }

    constructor (topics: seq<string>)
      requires forall i, j :: 0 <= i < j < |topics| ==> topics[i] != topics[j]
      ensures Valid() && this.topics == topics
      ensures forall t :: t in topics ==> View(t) == Seen(None, [])
    {
      this.topics := topics;
      last := map[];
      logs := map t | t in topics :: [];
    }

    /** Poll every topic once; a topic without a value yet is passed over. */
    method OnTick(values: seq<Option<Cell<T>>>)
      requires Valid() && |values| == |topics|
      modifies this
      ensures Valid()
      ensures forall i :: 0 <= i < |topics| ==> View(topics[i]) == Observe(old(View(topics[i])), values[i])
    {
      for i := 0 to |topics|
        invariant Valid()
        invariant forall j :: 0 <= j < i ==> View(topics[j]) == Observe(old(View(topics[j])), values[j])
        invariant forall j :: i <= j < |topics| ==> View(topics[j]) == old(View(topics[j]))
      {
        var t := topics[i];
        if values[i].Some? {
          var fid := values[i].value.fid;
          if t !in last || last[t] != fid {
            last := last[t := fid];
            logs := logs[t := logs[t] + [values[i].value]];
          }
        }
      }
    }
  }

  /** One topic as the logger knows it. */
  datatype Seen<T> = Seen(last: Option<nat>, logged: seq<Cell<T>>)

  function Observe<T>(s: Seen<T>, v: Option<Cell<T>>): Seen<T> {
    if v.None? || s.last == Some(v.value.fid) then s
    else Seen(Some(v.value.fid), s.logged + [v.value])
  }

  function ObserveAll<T>(polls: seq<Option<Cell<T>>>): Seen<T> {
    if polls == [] then Seen(None, []) else Observe(ObserveAll(Init(polls)), Last(polls))
  }

  /** Polls of a publisher that only appends cells: poll i finds nothing yet, or the newest of the first at[i]. */
  ghost predicate PollsOf<T>(cells: seq<Cell<T>>, polls: seq<Option<Cell<T>>>, at: seq<nat>) {
    && |at| == |polls|
    && (forall i :: 0 <= i < |at| ==> at[i] <= |cells|)
    && (forall i, j :: 0 <= i < j < |at| ==> at[i] <= at[j])
    && (forall i :: 0 <= i < |polls| ==> polls[i] == if at[i] == 0 then None else Some(cells[at[i] - 1]))
  }

  /** The cells that were current at some poll, each once, in order. */
  function Shown<T>(cells: seq<Cell<T>>, at: seq<nat>): seq<Cell<T>>
    requires forall i :: 0 <= i < |at| ==> at[i] <= |cells|
  {
    if at == [] then []
    else
      Shown(cells, Init(at)) +
      if Last(at) == 0 || (|at| > 1 && at[|at| - 2] == Last(at)) then [] else [cells[Last(at) - 1]]
  }

  /** The value that the last poll to find one found. */
  function LastFound<T>(polls: seq<Option<Cell<T>>>): Option<Cell<T>> {
    if polls == [] then None
    else if Last(polls).Some? then Last(polls)
    else LastFound(Init(polls))
  }

  lemma {:induction false} LastIsFound<T>(polls: seq<Option<Cell<T>>>)
    ensures ObserveAll(polls).last == if LastFound(polls).Some? then Some(LastFound(polls).value.fid) else None
  {
    if polls != [] {
      LastIsFound(Init(polls));
    }
  }

  /** Whatever the frame ids do, a poll is logged exactly if it finds a value whose id differs from that of the value
      found last. */
  lemma LogsOnChange<T>(polls: seq<Option<Cell<T>>>, v: Option<Cell<T>>)
    ensures var before := LastFound(polls);
            ObserveAll(polls + [v]).logged ==
            if v.Some? && (before.None? || before.value.fid != v.value.fid) then ObserveAll(polls).logged + [v.value]
            else ObserveAll(polls).logged
  {
    SnocParts(polls, v);
    LastIsFound(polls);
  }

  ghost predicate Numbered<T>(cells: seq<Cell<T>>) {
    forall i, j :: 0 <= i < j < |cells| ==> cells[i].fid < cells[j].fid
  }

  /** With rising frame ids the logger logs exactly the cells that were current at some poll, each once and in
      order: whatever it skipped equals the cell it logged last. */
  lemma {:induction false} LogsEveryChange<T>(cells: seq<Cell<T>>, polls: seq<Option<Cell<T>>>, at: seq<nat>)
    requires Numbered(cells) && PollsOf(cells, polls, at)
    ensures var s := ObserveAll(polls);
            && s.logged == Shown(cells, at)
            && s.last == (if at == [] || Last(at) == 0 then None else Some(cells[Last(at) - 1].fid))
            && (at != [] && Last(at) > 0 ==> s.logged != [] && Last(s.logged) == cells[Last(at) - 1])
  {
    if polls != [] {
      LogsEveryChange(cells, Init(polls), Init(at));
      if |at| > 1 && Last(at) > 0 && at[|at| - 2] > 0 {
        var i, j := at[|at| - 2] - 1, Last(at) - 1;
        assert i <= j;
        assert i < j ==> cells[i].fid < cells[j].fid;
      }
    }
  }

  /** Polled after each publication, the log is the whole history. */
  lemma {:induction false} LogsWholeHistory<T>(cells: seq<Cell<T>>, polls: seq<Option<Cell<T>>>, at: seq<nat>)
    requires Numbered(cells) && PollsOf(cells, polls, at)
    requires forall k :: 1 <= k <= |cells| ==> k in at
    ensures ObserveAll(polls).logged == cells
  {
    LogsEveryChange(cells, polls, at);
    ShownCovers(cells, at, |at|);
    assert at[..|at|] == at;
    if cells != [] {
      LastPoll(|cells|, at);
      assert cells[..|cells|] == cells;
    }
  }

  lemma {:induction false} ShownCovers<T>(cells: seq<Cell<T>>, at: seq<nat>, n: nat)
    requires n <= |at|
    requires forall i :: 0 <= i < |at| ==> at[i] <= |cells|
    requires forall i, j :: 0 <= i < j < |at| ==> at[i] <= at[j]
    requires forall k :: 1 <= k <= |cells| ==> k in at
    ensures Shown(cells, at[..n]) == if n == 0 then [] else cells[..at[n - 1]]
  {
    hide Shown;
    if n == 0 {
      assert at[..0] == [];
      NoneShown(cells);
    } else {
      ShownCovers(cells, at, n - 1);
      OneStep(|cells|, at, n - 1);
      assert Init(at[..n]) == at[..n - 1] && Last(at[..n]) == at[n - 1];
      ShownStep(cells, at[..n]);
      PrefixSnoc(cells, at[n - 1]);
    }
  }

  lemma NoneShown<T>(cells: seq<Cell<T>>)
    ensures Shown(cells, []) == []
  {
  }

  lemma ShownStep<T>(cells: seq<Cell<T>>, at: seq<nat>)
    requires at != [] && forall i :: 0 <= i < |at| ==> at[i] <= |cells|
    ensures var before := Shown(cells, Init(at));
            Shown(cells, at) ==
            if Last(at) == 0 || (|at| > 1 && at[|at| - 2] == Last(at)) then before
            else before + [cells[Last(at) - 1]]
  {
    var before := Shown(cells, Init(at));
    assert before + [] == before;
  }

  lemma PrefixSnoc<T>(s: seq<T>, k: nat)
    requires k <= |s|
    ensures k > 0 ==> s[..k] == s[..k - 1] + [s[k - 1]]
  {
  }

  /** Polls after each of n publications advance by at most one cell. */
  lemma OneStep(n: nat, at: seq<nat>, i: nat)
    requires i < |at| && forall i, j :: 0 <= i < j < |at| ==> at[i] <= at[j]
    requires (forall i :: 0 <= i < |at| ==> at[i] <= n) && forall k :: 1 <= k <= n ==> k in at
    ensures var before := if i > 0 then at[i - 1] else 0; before <= at[i] <= before + 1
  {
    var before := if i > 0 then at[i - 1] else 0;
    if before + 1 <= n {
      assert before + 1 in at;
      var p :| 0 <= p < |at| && at[p] == before + 1;
      assert p >= i;
    }
  }

  lemma LastPoll(n: nat, at: seq<nat>)
    requires n > 0 && n in at && forall i, j :: 0 <= i < j < |at| ==> at[i] <= at[j]
    requires forall i :: 0 <= i < |at| ==> at[i] <= n
    ensures at[|at| - 1] == n
  {
    var p :| 0 <= p < |at| && at[p] == n;
  }
}
