/** The parameter server: a live table, a table on disk and a published cell per topic, moved by
    batches of requests that are validated or quarantined; and what is left when a request raises, after
    its whole batch has been taken out of the inbox. */
module ParamServer {
  import opened Basics

  /** A JSON value as far as it matters: a number fits a parameter, a boolean or anything else does not, and an integer
      too large for a double raises. */
  datatype Json = Num(x: real) | Huge | Flag(b: bool) | Other

  /** A key that looks a parameter up, one that finds none, or one (a list, say) that cannot be looked up at all. */
  datatype Key = Name(name: string) | Nameless | Unhashable

  datatype Request = Request(key: Key, value: Json, persist: bool) | NotObject

  datatype Param = Param(value: real, lo: Option<real>, hi: Option<real>)

  type Table = map<string, Param>

  // ----- One request --------------------------------------------------------------------------

  /** Range-checked only if both bounds are declared. */
  predicate InRange(p: Param, x: real) {
    p.lo.Some? && p.hi.Some? ==> p.lo.value <= x <= p.hi.value
  }

  predicate Known(t: Table, req: Request) {
    req.Request? && req.key.Name? && req.key.name in t
  }

  predicate Accepts(t: Table, req: Request) {
    Known(t, req) && req.value.Num? && InRange(t[req.key.name], req.value.x)
  }

  /** Applying it raises an error that nothing in the tick catches. */
  predicate Raises(t: Table, req: Request) {
    req.NotObject? || req.key.Unhashable? || (Known(t, req) && req.value.Huge?)
  }

  function Set(t: Table, req: Request): Table {
    if Accepts(t, req) then t[req.key.name := t[req.key.name].(value := req.value.x)] else t
  }

  /** The position of the first request that raises, or the length if none does. */
  function FirstRaising(t: Table, reqs: seq<Request>): (n: nat)
    ensures n <= |reqs| && forall i :: 0 <= i < n ==> !Raises(t, reqs[i])
    ensures n < |reqs| ==> Raises(t, reqs[n])
  {
    if reqs == [] || Raises(t, reqs[0]) then 0 else 1 + FirstRaising(t, reqs[1..])
  }

  /** No request of the batch raises. */
  predicate Calm(t: Table, reqs: seq<Request>) {
    FirstRaising(t, reqs) == |reqs|
  }

  function Handled(t: Table, reqs: seq<Request>): seq<Request> {
    reqs[..FirstRaising(t, reqs)]
  }

  /** The request that raises and all behind it: their files are gone. */
  function Lost(t: Table, reqs: seq<Request>): seq<Request> {
    reqs[FirstRaising(t, reqs)..]
  }

  function Values(t: Table): (v: map<string, real>)
    ensures v.Keys == t.Keys && forall k :: k in t ==> v[k] == t[k].value
  {
    map k | k in t :: t[k].value
  }

  // ----- Batches ------------------------------------------------------------------------------

  function Fold(t: Table, reqs: seq<Request>): Table {
    if reqs == [] then t else Set(Fold(t, Init(reqs)), Last(reqs))
  }

  function Accepted(t: Table, reqs: seq<Request>): seq<Request> {
    if reqs == [] then [] else Accepted(t, Init(reqs)) + if Accepts(t, Last(reqs)) then [Last(reqs)] else []
  }

  function Rejected(t: Table, reqs: seq<Request>): seq<Request> {
    if reqs == [] then [] else Rejected(t, Init(reqs)) + if Accepts(t, Last(reqs)) then [] else [Last(reqs)]
  }

  ghost predicate Persists(reqs: seq<Request>) {
    exists i :: 0 <= i < |reqs| && reqs[i].Request? && reqs[i].persist
  }

  /** The declared names and ranges of two tables agree. */
  ghost predicate SameShape(a: Table, b: Table) {
    a.Keys == b.Keys && forall k :: k in a ==> a[k].lo == b[k].lo && a[k].hi == b[k].hi
  }

  /** A request's fate depends on declared names and ranges only, and requests never change those. */
  lemma {:induction false} FoldShape(t: Table, reqs: seq<Request>)
    ensures SameShape(Fold(t, reqs), t)
    ensures forall r :: Accepts(Fold(t, reqs), r) <==> Accepts(t, r)
    ensures forall r :: Raises(Fold(t, reqs), r) <==> Raises(t, r)
  {
    if reqs != [] {
      FoldShape(t, Init(reqs));
    }
  }

  lemma {:induction false} FilterByShape(a: Table, b: Table, reqs: seq<Request>)
    requires SameShape(a, b)
    ensures Accepted(a, reqs) == Accepted(b, reqs) && Rejected(a, reqs) == Rejected(b, reqs)
  {
    if reqs != [] {
      FilterByShape(a, b, Init(reqs));
    }
  }

  lemma {:induction false} RaisingByShape(a: Table, b: Table, reqs: seq<Request>)
    requires SameShape(a, b)
    ensures FirstRaising(a, reqs) == FirstRaising(b, reqs)
  {
    if reqs != [] {
      RaisingByShape(a, b, reqs[1..]);
    }
  }

  lemma {:induction false} FilterConcat(t: Table, a: seq<Request>, b: seq<Request>)
    ensures Accepted(t, a + b) == Accepted(t, a) + Accepted(t, b)
    ensures Rejected(t, a + b) == Rejected(t, a) + Rejected(t, b)
  {
    if b == [] {
      assert a + b == a;
    } else {
      FilterConcat(t, a, Init(b));
      AppendSnoc(a, b);
    }
  }

  /** Batching does not matter to the table. */
  lemma {:induction false} FoldConcat(t: Table, a: seq<Request>, b: seq<Request>)
    ensures Fold(t, a + b) == Fold(Fold(t, a), b)
  {
    if b == [] {
      assert a + b == a;
    } else {
      FoldConcat(t, a, Init(b));
      AppendSnoc(a, b);
    }
  }

  /** A valid set of parameter k: it names k, the value is a number, and it is in k's range if both ends are
      declared. */
  predicate Sets(t: Table, req: Request, k: string) {
    && req.Request? && req.key == Name(k) && k in t && req.value.Num?
    && (t[k].lo.Some? && t[k].hi.Some? ==> t[k].lo.value <= req.value.x <= t[k].hi.value)
  }

  /** Exactly the valid sets are accepted. */
  lemma AcceptedSets(t: Table, req: Request)
    ensures Accepts(t, req) <==> exists k :: Sets(t, req, k)
    ensures forall k :: Sets(t, req, k) ==> req.key.name == k
  {
    if Accepts(t, req) {
      assert Sets(t, req, req.key.name);
    }
  }

  /** The value of a parameter is that of the last accepted set naming it. */
  lemma {:induction false} LastSetWins(t: Table, reqs: seq<Request>, k: string)
    requires k in t
    ensures k in Fold(t, reqs)
    ensures forall i :: 0 <= i < |reqs| && Sets(t, reqs[i], k) && (forall j :: i < j < |reqs| ==> !Sets(t, reqs[j], k))
              ==> Fold(t, reqs)[k].value == reqs[i].value.x
    ensures (forall j :: 0 <= j < |reqs| ==> !Sets(t, reqs[j], k)) ==> Fold(t, reqs)[k] == t[k]
  {
    if reqs != [] {
      var front := Init(reqs);
      FoldShape(t, front);
      LastSetWins(t, front, k);
      AcceptedSets(t, Last(reqs));
      AcceptedSets(Fold(t, front), Last(reqs));
      assert forall j :: 0 <= j < |front| ==> front[j] == reqs[j];
      assert Sets(t, Last(reqs), k) <==> Sets(t, reqs[|reqs| - 1], k);
    }
  }

  /** The value is in the declared range, if both its ends are declared. */
  predicate InOwnRange(p: Param) {
    p.lo.Some? && p.hi.Some? ==> p.lo.value <= p.value <= p.hi.value
  }

  lemma {:induction false} FoldRange(t: Table, reqs: seq<Request>, k: string)
    requires k in t && InOwnRange(t[k])
    ensures k in Fold(t, reqs) && InOwnRange(Fold(t, reqs)[k])
  {
    if reqs != [] {
      FoldRange(t, Init(reqs), k);
    }
  }

  /** A topic as values. */
  datatype State = State(params: Table, frame: nat, disk: Table, parked: seq<Request>)

  /** A batch that does not raise: publish once if anything was accepted, save once if an accepted request asked. */
  ghost function Settle(s: State, reqs: seq<Request>): State {
    State(
      Fold(s.params, reqs),
      s.frame + (if Accepted(s.params, reqs) == [] then 0 else 1),
      if Persists(Accepted(s.params, reqs)) then Fold(s.params, reqs) else s.disk,
      s.parked + Rejected(s.params, reqs))
  }

  /** Where a batch that raises stops: what came before has been applied, and neither published nor saved. */
  function Stopped(s: State, reqs: seq<Request>): State {
    var done := Handled(s.params, reqs);
    s.(params := Fold(s.params, done), parked := s.parked + Rejected(s.params, done))
  }

  /** The first process boots from the file, with nothing quarantined. */
  function Boot(file: Table): State {
    State(file, 1, file, [])
  }

  /** The next process boots from the files. */
  function Restarted(s: State): State {
    State(s.disk, 1, s.disk, s.parked)
  }

  /** One tick of a topic, and the restart if it raises. */
  ghost function Tick(s: State, reqs: seq<Request>): State {
    if Calm(s.params, reqs) then Settle(s, reqs) else Restarted(Stopped(s, reqs))
  }

  /** The first topic whose batch raises, or the number of topics. */
  function FirstBad(ss: seq<State>, batches: seq<seq<Request>>): (n: nat)
    requires |ss| == |batches|
    ensures n <= |ss| && forall i :: 0 <= i < n ==> Calm(ss[i].params, batches[i])
    ensures n < |ss| ==> !Calm(ss[n].params, batches[n])
  {
    if ss == [] || !Calm(ss[0].params, batches[0]) then 0 else 1 + FirstBad(ss[1..], batches[1..])
  }

  lemma FirstBadIs(ss: seq<State>, batches: seq<seq<Request>>, n: nat)
    requires |ss| == |batches| && n <= |ss| && forall i :: 0 <= i < n ==> Calm(ss[i].params, batches[i])
    requires n < |ss| ==> !Calm(ss[n].params, batches[n])
    ensures FirstBad(ss, batches) == n
  {
  }

  /** One tick of the whole server: topics take their batches in order; the first whose batch raises ends the process,
      before the ones behind it are looked at, and every topic restarts. */
  ghost function Round(ss: seq<State>, batches: seq<seq<Request>>): seq<State>
    requires |ss| == |batches|
  {
    var n := FirstBad(ss, batches);
    seq(|ss|, i requires 0 <= i < |ss| =>
      if n == |ss| then Settle(ss[i], batches[i])
      else if i < n then Restarted(Settle(ss[i], batches[i]))
      else if i == n then Restarted(Stopped(ss[i], batches[i]))
      else Restarted(ss[i]))
  }

  // ----- The service --------------------------------------------------------------------------

  class Topic {
    var params: Table
    var frame: nat
    var cell: Cell<map<string, real>>  // the published blackboard cell
    var disk: Table                    // the JSON file
    var parked: seq<Request>           // quarantined, in order

    /** The published cell is the live table. */
    ghost predicate Published()
      reads this
    {
      && cell.fid == frame && cell.content.Keys == params.Keys
      && forall k :: k in params ==> cell.content[k] == params[k].value
    }

    ghost function View(): State
      reads this
    {
      State(params, frame, disk, parked)
    }

    /** Boot from the file: every parameter has a value, and is published at once. */
    constructor (file: Table)
      ensures Published() && View() == Boot(file)
    {
      params, disk, parked := file, file, [];
      frame := 1;
      cell := Cell(1, Values(file));
    }

    /** After a tick that raised, a new process boots from the same files. */
    method Restart()
      modifies this
      ensures Published() && View() == Restarted(old(View()))
    {
      params := disk;
      frame := 0;
      Publish();
    }

    /** True if it raised; otherwise whether the request was applied. */
    method Apply(req: Request) returns (raised: bool, ok: bool)
      modifies this`params, this`parked
      ensures raised <==> Raises(old(params), req)
      ensures ok <==> Accepts(old(params), req)
      ensures params == Set(old(params), req)
      ensures parked == if ok || raised then old(parked) else old(parked) + [req]
      ensures ok <==> exists k :: Sets(old(params), req, k)
      ensures forall k :: Sets(old(params), req, k) ==>
                params == old(params)[k := Param(req.value.x, old(params)[k].lo, old(params)[k].hi)]
      ensures raised <==> req.NotObject? || req.key.Unhashable?
                          || (req.key.Name? && req.key.name in old(params) && req.value.Huge?)
    {
      AcceptedSets(params, req);
      if req.NotObject? || req.key.Unhashable? {
        return true, false;
      }
      if req.key.Nameless? || req.key.name !in params {
        parked := parked + [req];
        return false, false;
      }
      var entry := params[req.key.name];
      if req.value.Huge? {
        return true, false;
      }
      if !req.value.Num? {
        parked := parked + [req];
        return false, false;
      }
      if entry.lo.Some? && entry.hi.Some? && !(entry.lo.value <= req.value.x <= entry.hi.value) {
        parked := parked + [req];
        return false, false;
      }
      params := params[req.key.name := entry.(value := req.value.x)];
      return false, true;
    }

    method Publish()
      modifies this`frame, this`cell
      ensures Published() && frame == old(frame) + 1
    {
      frame := frame + 1;
      cell := Cell(frame, Values(params));
    }

    /** Apply a drained batch in order; publish once if anything was accepted, and save the whole table once
        if an accepted request asked for it. A request that raises ends the tick on the spot. */
    method OnTick(reqs: seq<Request>) returns (raised: bool)
      requires Published()
      modifies this
      ensures raised <==> !Calm(old(params), reqs)
      ensures !raised ==> Published() && View() == Settle(old(View()), reqs)
      ensures raised ==> View() == Stopped(old(View()), reqs) && cell == old(cell)
    {
      hide Raises, Accepts, Set, Fold, Accepted, Rejected, FirstRaising, Persists, Values;
      var changed, persist := false, false;
      EmptyBatch(params);
      for i := 0 to |reqs|
        invariant forall j :: 0 <= j < i ==> !Raises(old(params), reqs[j])
        invariant params == Fold(old(params), reqs[..i])
        invariant parked == old(parked) + Rejected(old(params), reqs[..i])
        invariant changed <==> Accepted(old(params), reqs[..i]) != []
        invariant persist <==> Persists(Accepted(old(params), reqs[..i]))
        invariant frame == old(frame) && cell == old(cell) && disk == old(disk)
        invariant !changed ==> params == old(params)
      {
        BatchSnoc(old(params), reqs, i);
        var failed, ok := Apply(reqs[i]);
        if failed {
          return true;
        }
        if ok {
          changed := true;
          persist := persist || reqs[i].persist;
        }
      }
      assert reqs[..|reqs|] == reqs;
      if changed {
        Publish();
        if persist {
          disk := params;
        }
      }
      return false;
    }
  }

  /** One topic after another; each sees only its own batch. */
  class Server {
    const topics: seq<Topic>

    constructor (topics: seq<Topic>)
      ensures this.topics == topics
    {
      this.topics := topics;
    }

    /** The topic whose batch raised, or the number of topics if none did. Those before it have settled; those behind
        it have not been looked at, and their requests are still in their inboxes. */
    method OnTick(batches: seq<seq<Request>>) returns (n: nat)
      requires |batches| == |topics|
      requires forall i, j :: 0 <= i < j < |topics| ==> topics[i] != topics[j]
      requires forall t :: t in topics ==> t.Published()
      modifies topics
      ensures n <= |topics| && forall i :: 0 <= i < n ==> Calm(old(topics[i].params), batches[i])
      ensures forall i :: 0 <= i < n ==>
                topics[i].Published() && topics[i].View() == Settle(old(topics[i].View()), batches[i])
      ensures n < |topics| ==> !Calm(old(topics[n].params), batches[n])
      ensures n < |topics| ==> topics[n].View() == Stopped(old(topics[n].View()), batches[n])
      ensures forall i :: n < i < |topics| ==> topics[i].Published() && topics[i].View() == old(topics[i].View())
    {
      hide Topic.Published, Settle, Stopped, Calm;
      for i := 0 to |topics|
        invariant forall j :: 0 <= j < i ==> Calm(old(topics[j].params), batches[j])
        invariant forall j :: 0 <= j < i ==> topics[j].Published()
        invariant forall j :: 0 <= j < i ==> topics[j].View() == Settle(old(topics[j].View()), batches[j])
        invariant forall j :: i <= j < |topics| ==> topics[j].Published() && topics[j].View() == old(topics[j].View())
      {
        var raised := topics[i].OnTick(batches[i]);
        if raised {
          return i;
        }
      }
      return |topics|;
    }

    /** A new process boots every topic from its files. */
    method Restart()
      requires forall i, j :: 0 <= i < j < |topics| ==> topics[i] != topics[j]
      modifies topics
      ensures forall t :: t in topics ==> t.Published()
      ensures forall i :: 0 <= i < |topics| ==> topics[i].View() == Restarted(old(topics[i].View()))
    {
      for i := 0 to |topics|
        invariant forall j :: 0 <= j < i ==> topics[j].Published()
        invariant forall j :: 0 <= j < i ==> topics[j].View() == Restarted(old(topics[j].View()))
        invariant forall j :: i <= j < |topics| ==> topics[j].View() == old(topics[j].View())
      {
        topics[i].Restart();
      }
    }

    ghost function Views(): seq<State>
      reads topics
    {
      seq(|topics|, i reads topics requires 0 <= i < |topics| => topics[i].View())
    }

    /** One tick, and the next process if it raised. */
    method Serve(batches: seq<seq<Request>>)
      requires |batches| == |topics|
      requires forall i, j :: 0 <= i < j < |topics| ==> topics[i] != topics[j]
      requires forall t :: t in topics ==> t.Published()
      modifies topics
      ensures forall t :: t in topics ==> t.Published()
      ensures Views() == Round(old(Views()), batches)
    {
      ghost var before := Views();
      var n := OnTick(batches);
      FirstBadIs(before, batches, n);
      if n < |topics| {
        Restart();
      }
    }
  }

  lemma EmptyBatch(t: Table)
    ensures Fold(t, []) == t && Accepted(t, []) == [] == Rejected(t, []) && !Persists([])
  {
  }

  /** What one more request of a batch changes. */
  lemma BatchSnoc(t: Table, reqs: seq<Request>, i: nat)
    requires i < |reqs|
    ensures var live := Fold(t, reqs[..i]); var r := reqs[i]; var ok := Accepts(live, r);
            && (Raises(live, r) <==> Raises(t, r)) && !(Raises(live, r) && ok)
            && Fold(t, reqs[..i + 1]) == Set(live, r) && (!ok ==> Set(live, r) == live)
            && Accepted(t, reqs[..i + 1]) == Accepted(t, reqs[..i]) + (if ok then [r] else [])
            && Rejected(t, reqs[..i + 1]) == Rejected(t, reqs[..i]) + (if ok then [] else [r])
            && (Persists(Accepted(t, reqs[..i + 1])) <==>
                  Persists(Accepted(t, reqs[..i])) || (ok && r.Request? && r.persist))
            && (ok ==> r.Request?)
  {
    assert Init(reqs[..i + 1]) == reqs[..i] && Last(reqs[..i + 1]) == reqs[i];
    FoldShape(t, reqs[..i]);
    PersistsSnoc(Accepted(t, reqs[..i]), reqs[i]);
    assert Accepted(t, reqs[..i]) + [] == Accepted(t, reqs[..i]);
  }

  lemma PersistsSnoc(reqs: seq<Request>, r: Request)
    ensures Persists(reqs + [r]) <==> Persists(reqs) || (r.Request? && r.persist)
  {
    if Persists(reqs) {
      var i :| 0 <= i < |reqs| && reqs[i].Request? && reqs[i].persist;
      assert (reqs + [r])[i].persist;
    }
    if r.Request? && r.persist {
      assert (reqs + [r])[|reqs|].persist;
    }
  }
}
