/** What holds of the parameter server after any history of ticks, raises and restarts.

    One process serves every topic, so a topic lives through batches of its own and through restarts that
    another topic's batch caused. `Turn` says what befalls one topic; `RoundsAreTurns` derives the turns of
    every topic from the ticks of the whole server. */
module ParamHistory {
  import opened Basics
  import opened ParamServer

  /** A topic takes a batch (and restarts if that raises), or the process restarts for another reason. */
  datatype Turn = Batch(reqs: seq<Request>) | Reboot

  ghost function Take(s: State, turn: Turn): State {
    match turn
    case Batch(reqs) => Tick(s, reqs)
    case Reboot => Restarted(s)
  }

  ghost function Turns(s: State, turns: seq<Turn>): State {
    if turns == [] then s else Take(Turns(s, Init(turns)), Last(turns))
  }

  // ----- The whole server ---------------------------------------------------------------------

  ghost function Rounds(files: seq<Table>, rounds: seq<seq<seq<Request>>>): (ss: seq<State>)
    requires forall r :: r in rounds ==> |r| == |files|
    ensures |ss| == |files|
  {
    if rounds == [] then seq(|files|, i requires 0 <= i < |files| => Boot(files[i]))
    else Round(Rounds(files, Init(rounds)), Last(rounds))
  }

  /** What one tick of the server is for topic i: its batch, and a restart if another topic's batch raised; behind
      the one that raised, only the restart. */
  function TurnsIn(n: nat, batches: seq<seq<Request>>, i: nat): seq<Turn>
    requires i < |batches|
  {
    if n == |batches| || i == n then [Batch(batches[i])]
    else if i < n then [Batch(batches[i]), Reboot]
    else [Reboot]
  }

  ghost function TurnsOf(files: seq<Table>, rounds: seq<seq<seq<Request>>>, i: nat): seq<Turn>
    requires i < |files| && forall r :: r in rounds ==> |r| == |files|
  {
    if rounds == [] then []
    else
      TurnsOf(files, Init(rounds), i) +
      TurnsIn(FirstBad(Rounds(files, Init(rounds)), Last(rounds)), Last(rounds), i)
  }

  lemma {:induction false} TurnsConcat(s: State, a: seq<Turn>, b: seq<Turn>)
    ensures Turns(s, a + b) == Turns(Turns(s, a), b)
  {
    if b == [] {
      assert a + b == a;
    } else {
      TurnsConcat(s, a, Init(b));
      AppendSnoc(a, b);
    }
  }

  lemma OneTurn(s: State, t: Turn)
    ensures Turns(s, [t]) == Take(s, t)
  {
    assert Init([t]) == [] && Last([t]) == t;
  }

  lemma TwoTurns(s: State, t: Turn, u: Turn)
    ensures Turns(s, [t, u]) == Take(Take(s, t), u)
  {
    assert Init([t, u]) == [t] && Last([t, u]) == u;
    OneTurn(s, t);
  }

  lemma RoundIsTurns(ss: seq<State>, batches: seq<seq<Request>>, i: nat)
    requires i < |ss| == |batches|
    ensures Round(ss, batches)[i] == Turns(ss[i], TurnsIn(FirstBad(ss, batches), batches, i))
  {
    hide Settle, Stopped, Turns;
    var n := FirstBad(ss, batches);
    OneTurn(ss[i], Batch(batches[i]));
    OneTurn(ss[i], Reboot);
    TwoTurns(ss[i], Batch(batches[i]), Reboot);
  }

  /** Over every history of the server, each topic is what its own turns make of its file. */
  lemma {:induction false} RoundsAreTurns(files: seq<Table>, rounds: seq<seq<seq<Request>>>, i: nat)
    requires i < |files| && forall r :: r in rounds ==> |r| == |files|
    ensures Rounds(files, rounds)[i] == Turns(Boot(files[i]), TurnsOf(files, rounds, i))
  {
    hide Round;
    if rounds != [] {
      var ss, batches := Rounds(files, Init(rounds)), Last(rounds);
      RoundsAreTurns(files, Init(rounds), i);
      RoundIsTurns(ss, batches, i);
      TurnsConcat(Boot(files[i]), TurnsOf(files, Init(rounds), i), TurnsIn(FirstBad(ss, batches), batches, i));
    }
  }

  // ----- One topic ----------------------------------------------------------------------------

  function Flat(turns: seq<Turn>): seq<Request> {
    if turns == [] then [] else Flat(Init(turns)) + if Last(turns).Batch? then Last(turns).reqs else []
  }

  /** Declared names and ranges, in memory and on disk, stay those of the file. */
  lemma {:induction false} ShapeKeeps(file: Table, turns: seq<Turn>)
    ensures SameShape(Turns(Boot(file), turns).params, file) && SameShape(Turns(Boot(file), turns).disk, file)
  {
    if turns != [] {
      ShapeKeeps(file, Init(turns));
      if Last(turns).Batch? {
        FoldShape(Turns(Boot(file), Init(turns)).params, Last(turns).reqs);
      }
    }
  }

  lemma ByFile(file: Table, turns: seq<Turn>, reqs: seq<Request>)
    ensures var t := Turns(Boot(file), turns).params;
            && Accepted(t, reqs) == Accepted(file, reqs) && Rejected(t, reqs) == Rejected(file, reqs)
            && FirstRaising(t, reqs) == FirstRaising(file, reqs)
  {
    ShapeKeeps(file, turns);
    var t := Turns(Boot(file), turns).params;
    FilterByShape(t, file, reqs);
    RaisingByShape(t, file, reqs);
  }

  /** What a turn handles of its batch, and what it accepts of that. */
  function HandledIn(file: Table, turn: Turn): seq<Request> {
    if turn.Batch? then Handled(file, turn.reqs) else []
  }

  function AcceptedIn(file: Table, turn: Turn): seq<Request> {
    Accepted(file, HandledIn(file, turn))
  }

  /** The turn ends the running process. */
  predicate Ends(file: Table, turn: Turn) {
    turn.Reboot? || !Calm(file, turn.reqs)
  }

  /** The turn saves the table: its batch does not raise, and an accepted request asked for it. */
  ghost predicate Saves(file: Table, turn: Turn) {
    turn.Batch? && Calm(file, turn.reqs) && Persists(Accepted(file, turn.reqs))
  }

  /** A valid set that asks to be saved. */
  ghost predicate Asks(t: Table, req: Request) {
    req.Request? && req.persist && exists k :: Sets(t, req, k)
  }

  /** Said of the requests themselves: a batch saves exactly if it does not raise and some valid set in it asks for
      it. */
  lemma SavesIff(file: Table, turn: Turn)
    ensures Saves(file, turn) <==>
            && turn.Batch? && (forall i :: 0 <= i < |turn.reqs| ==> !Raises(file, turn.reqs[i]))
            && exists i :: 0 <= i < |turn.reqs| && Asks(file, turn.reqs[i])
  {
    if turn.Batch? {
      CalmIff(file, turn.reqs);
      PersistsIff(file, turn.reqs);
    }
  }

  lemma CalmIff(t: Table, reqs: seq<Request>)
    ensures Calm(t, reqs) <==> forall i :: 0 <= i < |reqs| ==> !Raises(t, reqs[i])
  {
  }

  lemma {:induction false} PersistsIff(t: Table, reqs: seq<Request>)
    ensures Persists(Accepted(t, reqs)) <==> exists i :: 0 <= i < |reqs| && Asks(t, reqs[i])
  {
    hide Sets, Accepts;
    if reqs != [] {
      var front, r := Init(reqs), Last(reqs);
      PersistsIff(t, front);
      FilterStep(t, reqs);
      PersistsSnoc(Accepted(t, front), r);
      AcceptedSets(t, r);
      AcceptedIsRequest(t, r);
      assert forall i :: 0 <= i < |front| ==> front[i] == reqs[i];
      assert Asks(t, r) <==> Asks(t, reqs[|reqs| - 1]);
    }
  }

  lemma AcceptedIsRequest(t: Table, r: Request)
    ensures Accepts(t, r) ==> r.Request?
  {
  }

  /** What one more turn does, said by the file at boot. */
  lemma NextTurn(file: Table, turns: seq<Turn>, turn: Turn)
    ensures var a, b := Turns(Boot(file), turns), Turns(Boot(file), turns + [turn]);
            && b.parked == a.parked + Rejected(file, HandledIn(file, turn))
            && (if Ends(file, turn) then b.params == b.disk == a.disk && b.frame == 1
                else
                  && b.params == Fold(a.params, turn.reqs)
                  && b.frame == a.frame + (if AcceptedIn(file, turn) == [] then 0 else 1)
                  && b.disk == if Saves(file, turn) then b.params else a.disk)
  {
    SnocParts(turns, turn);
    if turn.Batch? {
      ByFile(file, turns, turn.reqs);
      ByFile(file, turns, Handled(file, turn.reqs));
      assert turn.reqs[..|turn.reqs|] == turn.reqs;
    } else {
      assert Turns(Boot(file), turns).parked + [] == Turns(Boot(file), turns).parked;
    }
  }

  ghost predicate NoneEnds(file: Table, turns: seq<Turn>) {
    forall i :: 0 <= i < |turns| ==> !Ends(file, turns[i])
  }

  /** Where the running process booted: at the start, or after a turn that ended the one before. */
  ghost predicate Booted(file: Table, before: seq<Turn>) {
    before != [] ==> Ends(file, Last(before))
  }

  /** The live table is the fold of every request since the running process booted, however they were batched, over
      the table it found on disk; and each tick that accepted something has raised the frame id by one. */
  lemma {:induction false} TableIsFold(file: Table, before: seq<Turn>, after: seq<Turn>)
    requires Booted(file, before) && NoneEnds(file, after)
    ensures var a, b := Turns(Boot(file), before), Turns(Boot(file), before + after);
            && b.params == Fold(a.disk, Flat(after))
            && b.frame == 1 + Changes(file, after)
  {
    hide Turns, Fold, Accepted, FirstRaising, Saves, Ends;
    if after == [] {
      assert before + after == before;
      FoldNone(Turns(Boot(file), before).disk);
      BootedState(file, before);
    } else {
      var front, last := Init(after), Last(after);
      assert NoneEnds(file, front) by {
        assert forall i :: 0 <= i < |front| ==> front[i] == after[i];
      }
      TableIsFold(file, before, front);
      assert before + after == (before + front) + [last];
      assert !Ends(file, after[|after| - 1]);
      NotEnded(file, last);
      NextTurn(file, before + front, last);
      FoldConcat(Turns(Boot(file), before).disk, Flat(front), last.reqs);
    }
  }

  /** Request i is the last valid set of k. */
  ghost predicate LastSet(file: Table, reqs: seq<Request>, k: string, i: int) {
    0 <= i < |reqs| && Sets(file, reqs[i], k) && forall j :: i < j < |reqs| ==> !Sets(file, reqs[j], k)
  }

  /** What is published under k is the value of the last valid set of it since the running process booted, or what the
      disk held then. */
  lemma PublishedValue(file: Table, before: seq<Turn>, after: seq<Turn>, k: string)
    requires Booted(file, before) && NoneEnds(file, after) && k in file
    ensures var v, reqs := Values(Turns(Boot(file), before + after).params), Flat(after);
            && k in v && k in Turns(Boot(file), before).disk
            && (forall i :: LastSet(file, reqs, k, i) ==> v[k] == reqs[i].value.x)
            && ((forall j :: 0 <= j < |reqs| ==> !Sets(file, reqs[j], k)) ==>
                  v[k] == Turns(Boot(file), before).disk[k].value)
  {
    hide Turns, Fold, Flat;
    var disk := Turns(Boot(file), before).disk;
    TableIsFold(file, before, after);
    ShapeKeeps(file, before);
    LastSetWins(disk, Flat(after), k);
    assert forall req :: Sets(disk, req, k) <==> Sets(file, req, k);
  }

  lemma NotEnded(file: Table, turn: Turn)
    requires !Ends(file, turn)
    ensures turn.Batch? && Calm(file, turn.reqs) && HandledIn(file, turn) == turn.reqs
  {
  }

  lemma FoldNone(t: Table)
    ensures Fold(t, []) == t
  {
  }

  /** How many of the turns accept something. */
  function Changes(file: Table, turns: seq<Turn>): nat {
    if turns == [] then 0
    else Changes(file, Init(turns)) + if AcceptedIn(file, Last(turns)) == [] then 0 else 1
  }

  lemma BootedState(file: Table, before: seq<Turn>)
    requires Booted(file, before)
    ensures var s := Turns(Boot(file), before); s.params == s.disk && s.frame == 1
  {
    hide Fold, Accepted, FirstRaising;
    if before != [] {
      NextTurn(file, Init(before), Last(before));
      assert before == Init(before) + [Last(before)];
    }
  }

  /** A turn that ends the process forgets what was not saved: the table is the one on disk, under frame id 1. Of its
      batch, if it had one, what was rejected before the raise is quarantined, and nothing is published or saved. */
  lemma EndForgets(file: Table, turns: seq<Turn>, turn: Turn)
    requires Ends(file, turn)
    ensures var a, b := Turns(Boot(file), turns), Turns(Boot(file), turns + [turn]);
            && b.params == b.disk == a.disk && b.frame == 1
            && b.parked == a.parked + Rejected(file, HandledIn(file, turn))
  {
    NextTurn(file, turns, turn);
  }

  /** A set that is accepted and asked to be saved, and behind it one whose key is a list. The first leaves no trace in
      the table, on disk or in quarantine. */
  lemma ForgottenSet(p: Param)
    requires p.value != 7.0 && p.lo.None? && p.hi.None?
    ensures var file := map["speed" := p];
            var set7 := Request(Name("speed"), Num(7.0), true);
            && Accepts(file, set7)
            && Turns(Boot(file), [Batch([set7, Request(Unhashable, Num(1.0), false)])]) == Boot(file)
            && Turns(Boot(file), [Batch([set7])]).disk == map["speed" := p.(value := 7.0)]
  {
    var file := map["speed" := p];
    var set7 := Request(Name("speed"), Num(7.0), true);
    var batch := [set7, Request(Unhashable, Num(1.0), false)];
    assert batch[1..] == [batch[1]];
    assert FirstRaising(file, batch[1..]) == 0;
    assert FirstRaising(file, batch) == 1;
    assert Handled(file, batch) == [set7];
    assert [set7][1..] == [];
    assert FirstRaising(file, [set7]) == 1;
    assert Init([set7]) == [] && Last([set7]) == set7;
    assert Rejected(file, [set7]) == [] && Accepted(file, [set7]) == [set7];
    assert Fold(file, [set7]) == map["speed" := p.(value := 7.0)];
    assert [set7][0].persist;
    OneTurn(Boot(file), Batch(batch));
    OneTurn(Boot(file), Batch([set7]));
  }

  /** A range that holds in the file holds in memory and on disk after every turn. */
  lemma {:induction false} RangesKeep(file: Table, turns: seq<Turn>, k: string)
    requires k in file && InOwnRange(file[k])
    ensures var s := Turns(Boot(file), turns);
            && k in s.params && InOwnRange(s.params[k])
            && k in s.disk && InOwnRange(s.disk[k])
  {
    if turns != [] {
      RangesKeep(file, Init(turns), k);
      if Last(turns).Batch? {
        FoldRange(Turns(Boot(file), Init(turns)).params, Last(turns).reqs, k);
      }
    }
  }

  /** Turn i saved, and none after it did. */
  ghost predicate LastSave(file: Table, turns: seq<Turn>, i: nat) {
    && i < |turns| && Saves(file, turns[i])
    && forall j :: i < j < |turns| ==> !Saves(file, turns[j])
  }

  /** The table on disk is the whole live table as it stood at the end of the last tick that saved, never a mixture;
      with no such tick it is the file at boot. A restart publishes that table again. */
  lemma {:induction false} DiskIsLastSaved(file: Table, turns: seq<Turn>)
    ensures var disk := Turns(Boot(file), turns).disk;
            && Turns(Boot(file), turns + [Reboot]).params == disk
            && ((forall i :: 0 <= i < |turns| ==> !Saves(file, turns[i])) ==> disk == file)
            && (forall i :: LastSave(file, turns, i) ==> disk == Turns(Boot(file), turns[..i + 1]).params)
  {
    hide Saves, Fold, Accepted, FirstRaising;
    NextTurn(file, turns, Reboot);
    if turns != [] {
      var front, n := Init(turns), |turns| - 1;
      DiskIsLastSaved(file, front);
      DiskStep(file, front, Last(turns));
      assert turns == front + [Last(turns)];
      assert forall j :: 0 <= j < n ==> front[j] == turns[j];
      forall i | LastSave(file, turns, i)
        ensures Turns(Boot(file), turns).disk == Turns(Boot(file), turns[..i + 1]).params
      {
        if i == n {
          assert turns[..n + 1] == turns;
        } else {
          assert !Saves(file, turns[n]);
          LastSaveOfFront(file, turns, i);
        }
      }
    }
  }

  lemma LastSaveOfFront(file: Table, turns: seq<Turn>, i: nat)
    requires LastSave(file, turns, i) && i < |turns| - 1
    ensures LastSave(file, Init(turns), i) && turns[..i + 1] == Init(turns)[..i + 1]
  {
    assert forall j :: 0 <= j < |turns| - 1 ==> Init(turns)[j] == turns[j];
  }

  lemma DiskStep(file: Table, turns: seq<Turn>, turn: Turn)
    ensures var s := Turns(Boot(file), turns + [turn]);
            s.disk == if Saves(file, turn) then s.params else Turns(Boot(file), turns).disk
  {
    NextTurn(file, turns, turn);
  }

  /** The requests of all turns that were handled, and those that were lost with and behind one that raised. */
  function AllHandled(file: Table, turns: seq<Turn>): seq<Request> {
    if turns == [] then [] else AllHandled(file, Init(turns)) + HandledIn(file, Last(turns))
  }

  function LostIn(file: Table, turn: Turn): seq<Request> {
    if turn.Batch? then Lost(file, turn.reqs) else []
  }

  function AllLost(file: Table, turns: seq<Turn>): seq<Request> {
    if turns == [] then [] else AllLost(file, Init(turns)) + LostIn(file, Last(turns))
  }

  /** The quarantine is exactly the rejected requests among those handled, in order. */
  lemma {:induction false} ParkedIsRejected(file: Table, turns: seq<Turn>)
    ensures Turns(Boot(file), turns).parked == Rejected(file, AllHandled(file, turns))
  {
    if turns != [] {
      hide Turns, Fold, Accepted, Rejected, FirstRaising, Saves;
      var front, last := Init(turns), Last(turns);
      ParkedIsRejected(file, front);
      NextTurn(file, front, last);
      assert turns == front + [last];
      FilterConcat(file, AllHandled(file, front), HandledIn(file, last));
    }
  }

  // ----- What becomes of an accepted set ------------------------------------------------------

  datatype Fate = Saved | Unsaved | Dropped

  /** A turn that decides what becomes of all sets still unsaved: it saves them, or ends their process. */
  ghost predicate Decides(file: Table, turn: Turn) {
    Saves(file, turn) || Ends(file, turn)
  }

  /** The first turn from i on that decides, or the number of turns. */
  ghost function Decider(file: Table, turns: seq<Turn>, i: nat): (j: nat)
    requires i <= |turns|
    ensures i <= j <= |turns| && forall k :: i <= k < j ==> !Decides(file, turns[k])
    ensures j < |turns| ==> Decides(file, turns[j])
    decreases |turns| - i
  {
    if i == |turns| || Decides(file, turns[i]) then i else Decider(file, turns, i + 1)
  }

  /** What has become of the sets accepted in turn i: saved if its process saved from then on; dropped if it ended
      without; as yet unsaved if neither. */
  ghost function FateAt(file: Table, turns: seq<Turn>, i: nat): Fate
    requires i <= |turns|
  {
    var j := Decider(file, turns, i);
    if j == |turns| then Unsaved else if Saves(file, turns[j]) then Saved else Dropped
  }

  /** The accepted sets of the first m turns with this fate, in order. */
  ghost function With(file: Table, turns: seq<Turn>, m: nat, fate: Fate): seq<Request>
    requires m <= |turns|
  {
    if m == 0 then []
    else
      With(file, turns, m - 1, fate) +
      if FateAt(file, turns, m - 1) == fate then AcceptedIn(file, turns[m - 1]) else []
  }

  ghost function AllWith(file: Table, turns: seq<Turn>, fate: Fate): seq<Request> {
    With(file, turns, |turns|, fate)
  }

  lemma DeciderIs(file: Table, turns: seq<Turn>, i: nat, j: nat)
    requires i <= j <= |turns| && (forall k :: i <= k < j ==> !Decides(file, turns[k]))
    requires j < |turns| ==> Decides(file, turns[j])
    ensures Decider(file, turns, i) == j
  {
    hide Decides;
  }

  /** One more turn decides what was undecided, if it decides at all. */
  lemma FateSnoc(file: Table, turns: seq<Turn>, turn: Turn, i: nat)
    requires i <= |turns|
    ensures FateAt(file, turns + [turn], i) ==
            if FateAt(file, turns, i) != Unsaved then FateAt(file, turns, i)
            else if Saves(file, turn) then Saved
            else if Ends(file, turn) then Dropped
            else Unsaved
  {
    hide Saves, Ends;
    var more := turns + [turn];
    var j := Decider(file, turns, i);
    assert forall k :: i <= k < j ==> !Decides(file, more[k]);
    if j == |turns| && !Decides(file, turn) {
      DeciderIs(file, more, i, |more|);
    } else {
      DeciderIs(file, more, i, j);
    }
  }

  /** What is undecided stays so to the end. */
  lemma UnsavedIsSuffix(file: Table, turns: seq<Turn>, i: nat, m: nat)
    requires i <= m <= |turns| && FateAt(file, turns, i) == Unsaved
    ensures FateAt(file, turns, m) == Unsaved
  {
    hide Saves, Ends;
    DeciderIs(file, turns, m, |turns|);
  }

  lemma {:induction false} NoneUnsaved(file: Table, turns: seq<Turn>, m: nat)
    requires m <= |turns| && FateAt(file, turns, m) != Unsaved
    ensures With(file, turns, m, Unsaved) == []
  {
    hide FateAt;
    if m > 0 {
      if FateAt(file, turns, m - 1) == Unsaved {
        UnsavedIsSuffix(file, turns, m - 1, m);
      }
      NoneUnsaved(file, turns, m - 1);
    }
  }

  lemma {:induction false} WithQuiet(file: Table, turns: seq<Turn>, turn: Turn, m: nat, fate: Fate)
    requires m <= |turns| && !Decides(file, turn)
    ensures With(file, turns + [turn], m, fate) == With(file, turns, m, fate)
  {
    hide FateAt, Saves, Ends, AcceptedIn;
    if m > 0 {
      WithQuiet(file, turns, turn, m - 1, fate);
      FateSnoc(file, turns, turn, m - 1);
    }
  }

  lemma {:induction false} WithSaving(file: Table, turns: seq<Turn>, turn: Turn, m: nat)
    requires m <= |turns| && Saves(file, turn)
    ensures With(file, turns + [turn], m, Saved) == With(file, turns, m, Saved) + With(file, turns, m, Unsaved)
    ensures With(file, turns + [turn], m, Unsaved) == []
    ensures With(file, turns + [turn], m, Dropped) == With(file, turns, m, Dropped)
  {
    hide FateAt, Saves, Ends, AcceptedIn, With;
    if m == 0 {
      NoneYet(file, turns);
      NoneYet(file, turns + [turn]);
      assert [] + [] == With(file, turns, 0, Saved);
    } else {
      WithSaving(file, turns, turn, m - 1);
      FateSnoc(file, turns, turn, m - 1);
      forall fate
        ensures With(file, turns, m, fate) == if FateAt(file, turns, m - 1) == fate
                then With(file, turns, m - 1, fate) + AcceptedIn(file, turns[m - 1]) else With(file, turns, m - 1, fate)
      {
        WithStep(file, turns, m, fate);
      }
      WithStep(file, turns + [turn], m, Saved);
      WithStep(file, turns + [turn], m, Unsaved);
      WithStep(file, turns + [turn], m, Dropped);
      var saved, unsaved := With(file, turns, m - 1, Saved), With(file, turns, m - 1, Unsaved);
      var more := AcceptedIn(file, turns[m - 1]);
      assert (turns + [turn])[m - 1] == turns[m - 1];
      match FateAt(file, turns, m - 1)
      case Saved =>
        NoneUnsaved(file, turns, m - 1);
        assert saved + [] == saved && (saved + more) + [] == saved + more;
      case Unsaved => Assoc(saved, unsaved, more);
      case Dropped =>
    }
  }

  lemma {:induction false} WithEnding(file: Table, turns: seq<Turn>, turn: Turn, m: nat)
    requires m <= |turns| && Ends(file, turn)
    ensures With(file, turns + [turn], m, Saved) == With(file, turns, m, Saved)
    ensures With(file, turns + [turn], m, Unsaved) == []
  {
    hide FateAt, Ends, AcceptedIn, Saves;
    if m > 0 {
      WithEnding(file, turns, turn, m - 1);
      FateSnoc(file, turns, turn, m - 1);
      assert !Saves(file, turn) by { SavesOrEnds(file, turn); }
    }
  }

  lemma WithStep(file: Table, turns: seq<Turn>, m: nat, fate: Fate)
    requires 0 < m <= |turns|
    ensures With(file, turns, m, fate) ==
            if FateAt(file, turns, m - 1) == fate then With(file, turns, m - 1, fate) + AcceptedIn(file, turns[m - 1])
            else With(file, turns, m - 1, fate)
  {
    hide FateAt, AcceptedIn;
    assert With(file, turns, m - 1, fate) + [] == With(file, turns, m - 1, fate);
  }

  lemma {:induction false} WithDropping(file: Table, turns: seq<Turn>, turn: Turn, m: nat)
    requires m <= |turns| && Ends(file, turn)
    ensures multiset(With(file, turns + [turn], m, Dropped)) ==
            multiset(With(file, turns, m, Dropped)) + multiset(With(file, turns, m, Unsaved))
  {
    hide FateAt, Ends, AcceptedIn, Saves, With;
    if m == 0 {
      NoneYet(file, turns);
      NoneYet(file, turns + [turn]);
    } else {
      WithDropping(file, turns, turn, m - 1);
      FateSnoc(file, turns, turn, m - 1);
      SavesOrEnds(file, turn);
      WithStep(file, turns + [turn], m, Dropped);
      WithStep(file, turns, m, Dropped);
      WithStep(file, turns, m, Unsaved);
      assert (turns + [turn])[m - 1] == turns[m - 1];
      var fate := FateAt(file, turns, m - 1);
      DropStep(With(file, turns + [turn], m - 1, Dropped), With(file, turns, m - 1, Dropped),
               With(file, turns, m - 1, Unsaved), AcceptedIn(file, turns[m - 1]), fate == Dropped, fate == Unsaved);
    }
  }

  lemma NoneYet(file: Table, turns: seq<Turn>)
    ensures forall fate :: With(file, turns, 0, fate) == []
  {
  }

  lemma DropStep<T>(all: seq<T>, a: seq<T>, b: seq<T>, more: seq<T>, toA: bool, toB: bool)
    requires multiset(all) == multiset(a) + multiset(b) && !(toA && toB)
    ensures multiset(if toA || toB then all + more else all) ==
            multiset(if toA then a + more else a) + multiset(if toB then b + more else b)
  {
    MoreToOne(all, a, b, more);
  }

  lemma MoreToOne<T>(all: seq<T>, a: seq<T>, b: seq<T>, more: seq<T>)
    requires multiset(all) == multiset(a) + multiset(b)
    ensures multiset(all + more) == multiset(a + more) + multiset(b) == multiset(a) + multiset(b + more)
  {
    Joined(all, more);
    Joined(a, more);
    Joined(b, more);
    AddEither(multiset(all), multiset(a), multiset(b), multiset(more));
  }

  /** How the fates change with one more turn. */
  lemma FatesSnoc(file: Table, turns: seq<Turn>, turn: Turn)
    ensures var saved, unsaved := AllWith(file, turns, Saved), AllWith(file, turns, Unsaved);
            var more, now := AcceptedIn(file, turn), turns + [turn];
            && AllWith(file, now, Saved) == (if Saves(file, turn) then saved + unsaved + more else saved)
            && AllWith(file, now, Unsaved) == (if Decides(file, turn) then [] else unsaved + more)
            && multiset(AllWith(file, now, Dropped)) ==
               multiset(AllWith(file, turns, Dropped)) +
               if Ends(file, turn) then multiset(unsaved) + multiset(more) else multiset{}
  {
    hide AcceptedIn, Saves, Ends, FateAt, With;
    var n := |turns|;
    assert (turns + [turn])[n] == turn;
    WithStep(file, turns + [turn], n + 1, Saved);
    WithStep(file, turns + [turn], n + 1, Unsaved);
    WithStep(file, turns + [turn], n + 1, Dropped);
    assert [] + AcceptedIn(file, turn) == AcceptedIn(file, turn);
    OwnFate(file, turns, turn);
    SavesOrEnds(file, turn);
    if Saves(file, turn) {
      WithSaving(file, turns, turn, n);
    } else if Ends(file, turn) {
      WithEnding(file, turns, turn, n);
      WithDropping(file, turns, turn, n);
      Joined(With(file, turns + [turn], n, Dropped), AcceptedIn(file, turn));
    } else {
      WithQuiet(file, turns, turn, n, Saved);
      WithQuiet(file, turns, turn, n, Unsaved);
      WithQuiet(file, turns, turn, n, Dropped);
    }
  }

  lemma SavesOrEnds(file: Table, turn: Turn)
    ensures !(Saves(file, turn) && Ends(file, turn))
  {
  }

  lemma OwnFate(file: Table, turns: seq<Turn>, turn: Turn)
    ensures FateAt(file, turns + [turn], |turns|) ==
            if Saves(file, turn) then Saved else if Ends(file, turn) then Dropped else Unsaved
  {
    FateSnoc(file, turns, turn, |turns|);
  }

  /** The tables are exactly what the fates say: the disk is the file with the saved sets applied, in order, and the
      live table is that with the unsaved ones on top. Dropped sets are in neither. */
  lemma {:induction false} TablesAreFates(file: Table, turns: seq<Turn>)
    ensures var s := Turns(Boot(file), turns); var saved := AllWith(file, turns, Saved);
            && s.disk == Fold(file, saved)
            && s.params == Fold(file, saved + AllWith(file, turns, Unsaved))
  {
    hide Turns, Fold, Saves, Ends, AllWith, AcceptedIn;
    if turns == [] {
      NoTurns(file);
    } else {
      var front, last := Init(turns), Last(turns);
      assert turns == front + [last];
      var a := Turns(Boot(file), front);
      var saved, unsaved, more := AllWith(file, front, Saved), AllWith(file, front, Unsaved), AcceptedIn(file, last);
      TablesAreFates(file, front);
      FatesSnoc(file, front, last);
      NextTurn(file, front, last);
      SavesOrEnds(file, last);
      assert saved + [] == saved;
      if !Ends(file, last) {
        FoldAccepted(file, front, last);
        FoldConcat(file, saved + unsaved, more);
        Assoc(saved, unsaved, more);
        assert (saved + unsaved + more) + [] == saved + unsaved + more;
      }
    }
  }

  lemma NoTurns(file: Table)
    ensures Turns(Boot(file), []) == Boot(file) && Fold(file, []) == file
    ensures AllWith(file, [], Saved) == [] == AllWith(file, [], Unsaved)
    ensures [] + AllWith(file, [], Unsaved) == []
  {
  }

  /** Rejected requests do nothing. */
  lemma {:induction false} FoldSkips(t: Table, reqs: seq<Request>)
    ensures Fold(t, reqs) == Fold(t, Accepted(t, reqs))
  {
    if reqs != [] {
      var front := Init(reqs);
      FoldSkips(t, front);
      FoldShape(t, front);
      if Accepts(t, Last(reqs)) {
        SnocParts(Accepted(t, front), Last(reqs));
      } else {
        assert Accepted(t, front) + [] == Accepted(t, front);
      }
    }
  }

  lemma FoldAccepted(file: Table, turns: seq<Turn>, turn: Turn)
    requires !Ends(file, turn)
    ensures var t := Turns(Boot(file), turns).params; Fold(t, turn.reqs) == Fold(t, AcceptedIn(file, turn))
  {
    NotEnded(file, turn);
    ByFile(file, turns, turn.reqs);
    FoldSkips(Turns(Boot(file), turns).params, turn.reqs);
  }

  lemma FilterStep(t: Table, reqs: seq<Request>)
    requires reqs != []
    ensures var accepted, rejected, r := Accepted(t, Init(reqs)), Rejected(t, Init(reqs)), Last(reqs);
            && Accepted(t, reqs) == (if Accepts(t, r) then accepted + [r] else accepted)
            && Rejected(t, reqs) == (if Accepts(t, r) then rejected else rejected + [r])
  {
    hide Accepts;
    assert Accepted(t, Init(reqs)) + [] == Accepted(t, Init(reqs));
    assert Rejected(t, Init(reqs)) + [] == Rejected(t, Init(reqs));
  }

  lemma {:induction false} FilterParts(t: Table, reqs: seq<Request>)
    ensures multiset(reqs) == multiset(Accepted(t, reqs)) + multiset(Rejected(t, reqs))
  {
    if reqs == [] {
      assert Accepted(t, []) == [] == Rejected(t, []);
    } else {
      hide Accepted, Rejected;
      var front := Init(reqs);
      FilterParts(t, front);
      FilterStep(t, reqs);
      Unsnoc(reqs);
      MoreToOne(front, Accepted(t, front), Rejected(t, front), [Last(reqs)]);
    }
  }

  lemma {:induction false} FilterMembers(t: Table, reqs: seq<Request>)
    ensures forall r :: r in Accepted(t, reqs) ==> Accepts(t, r)
    ensures forall r :: r in Rejected(t, reqs) ==> !Accepts(t, r)
  {
    hide Accepts;
    if reqs != [] {
      FilterMembers(t, Init(reqs));
    }
  }

  lemma {:induction false} HandledParts(file: Table, turns: seq<Turn>)
    ensures multiset(Flat(turns)) == multiset(AllHandled(file, turns)) + multiset(AllLost(file, turns))
  {
    hide HandledIn, LostIn;
    if turns != [] {
      var front, last := Init(turns), Last(turns);
      var reqs, handled, lost := if last.Batch? then last.reqs else [], HandledIn(file, last), LostIn(file, last);
      HandledParts(file, front);
      assert reqs == handled + lost by { TurnParts(file, last); }
      Joined(handled, lost);
      Joined(Flat(front), reqs);
      Joined(AllHandled(file, front), handled);
      Joined(AllLost(file, front), lost);
      FourWay(multiset(Flat(front)), multiset(AllHandled(file, front)), multiset(AllLost(file, front)),
              multiset(handled), multiset(lost));
    }
  }

  lemma TurnParts(file: Table, turn: Turn)
    ensures (if turn.Batch? then turn.reqs else []) == HandledIn(file, turn) + LostIn(file, turn)
  {
    if turn.Batch? {
      assert turn.reqs == HandledIn(file, turn) + LostIn(file, turn);
    }
  }

  lemma FourWay<T>(whole: multiset<T>, a: multiset<T>, b: multiset<T>, x: multiset<T>, y: multiset<T>)
    requires whole == a + b
    ensures whole + (x + y) == (a + x) + (b + y)
  {
  }

  /** No batch raised. */
  ghost predicate NoneRaises(file: Table, turns: seq<Turn>) {
    forall i :: 0 <= i < |turns| && turns[i].Batch? ==> Calm(file, turns[i].reqs)
  }

  lemma LostInIff(file: Table, turn: Turn)
    ensures LostIn(file, turn) == [] <==> (turn.Batch? ==> Calm(file, turn.reqs))
  {
    if turn.Batch? {
      assert |LostIn(file, turn)| == |turn.reqs| - FirstRaising(file, turn.reqs);
    }
  }

  lemma {:induction false} LostIff(file: Table, turns: seq<Turn>)
    ensures AllLost(file, turns) == [] <==> NoneRaises(file, turns)
  {
    hide FirstRaising, LostIn, Calm;
    if turns != [] {
      var front, last := Init(turns), Last(turns);
      LostIff(file, front);
      assert forall i :: 0 <= i < |front| ==> front[i] == turns[i];
      assert turns[|turns| - 1] == last;
      LostInIff(file, last);
    }
  }

  /** Every accepted set has one of the three fates. */
  lemma {:induction false} AcceptedParts(file: Table, turns: seq<Turn>)
    ensures multiset(Accepted(file, AllHandled(file, turns))) ==
            multiset(AllWith(file, turns, Saved)) + multiset(AllWith(file, turns, Unsaved)) +
            multiset(AllWith(file, turns, Dropped))
  {
    hide FirstRaising, Saves, Ends, AllWith, Accepted;
    if turns == [] {
      NoFates(file);
    } else {
      var front, last := Init(turns), Last(turns);
      assert turns == front + [last];
      AcceptedParts(file, front);
      FatesSnoc(file, front, last);
      SavesOrEnds(file, last);
      FilterConcat(file, AllHandled(file, front), HandledIn(file, last));
      var saved, unsaved, more := AllWith(file, front, Saved), AllWith(file, front, Unsaved), AcceptedIn(file, last);
      Joined(Accepted(file, AllHandled(file, front)), more);
      Joined(saved, unsaved);
      Joined(saved + unsaved, more);
      Joined(unsaved, more);
      ThreeWay(multiset(Accepted(file, AllHandled(file, front))), multiset(saved), multiset(unsaved),
               multiset(AllWith(file, front, Dropped)), multiset(more));
    }
  }

  lemma ThreeWay<T>(whole: multiset<T>, s: multiset<T>, u: multiset<T>, d: multiset<T>, x: multiset<T>)
    requires whole == s + u + d
    ensures whole + x == (s + u + x) + multiset{} + (d + multiset{})
    ensures whole + x == s + (u + x) + (d + multiset{})
    ensures whole + x == s + multiset{} + (d + (u + x))
  {
  }

  lemma NoFates(file: Table)
    ensures Accepted(file, AllHandled(file, [])) == []
    ensures AllWith(file, [], Saved) == AllWith(file, [], Unsaved) == AllWith(file, [], Dropped) == []
  {
  }

  /** Each request of all turns is, exactly once: accepted by the file, and saved, as yet unsaved, or dropped by the
      restart that ended its process without a save; rejected, and in quarantine; or lost with and behind one that
      raised, which happens only if some batch raises. */
  lemma EachRequestOnce(file: Table, turns: seq<Turn>)
    ensures multiset(Flat(turns)) ==
            multiset(AllWith(file, turns, Saved)) + multiset(AllWith(file, turns, Unsaved)) +
            multiset(AllWith(file, turns, Dropped)) +
            multiset(Turns(Boot(file), turns).parked) + multiset(AllLost(file, turns))
    ensures forall fate, r :: r in AllWith(file, turns, fate) ==> Accepts(file, r)
    ensures forall r :: r in Turns(Boot(file), turns).parked ==> !Accepts(file, r)
    ensures AllLost(file, turns) == [] <==> NoneRaises(file, turns)
  {
    hide AllWith, AllHandled, AllLost, Turns, Accepts, Accepted, Rejected, Flat;
    var handled := AllHandled(file, turns);
    ParkedIsRejected(file, turns);
    FilterParts(file, handled);
    FilterMembers(file, handled);
    AcceptedParts(file, turns);
    HandledParts(file, turns);
    LostIff(file, turns);
    forall fate, r | r in AllWith(file, turns, fate)
      ensures Accepts(file, r)
    {
      FateAccepted(file, turns, fate, r);
    }
  }

  lemma FateAccepted(file: Table, turns: seq<Turn>, fate: Fate, r: Request)
    requires r in AllWith(file, turns, fate)
    ensures r in Accepted(file, AllHandled(file, turns))
  {
    hide AllWith, AllHandled, Accepted;
    AcceptedParts(file, turns);
    var s, u, d := AllWith(file, turns, Saved), AllWith(file, turns, Unsaved), AllWith(file, turns, Dropped);
    assert r in multiset(s) || r in multiset(u) || r in multiset(d) by {
      match fate
      case Saved => assert r in multiset(s);
      case Unsaved => assert r in multiset(u);
      case Dropped => assert r in multiset(d);
    }
    assert r in multiset(Accepted(file, AllHandled(file, turns)));
  }

  lemma {:induction false} NothingAccepted(t: Table, reqs: seq<Request>)
    requires Accepted(t, reqs) == []
    ensures Fold(t, reqs) == t
  {
    FoldSkips(t, reqs);
  }

  /** At a tick that does not raise, the published frame id rises by one exactly if something was accepted; if nothing
      was, nothing but the quarantine changes. */
  lemma FrameCountsChanges(file: Table, turns: seq<Turn>, reqs: seq<Request>)
    requires Calm(file, reqs)
    ensures var a, b := Turns(Boot(file), turns), Turns(Boot(file), turns + [Batch(reqs)]);
            if Accepted(file, reqs) != [] then b.frame == a.frame + 1
            else b == a.(parked := a.parked + reqs)
  {
    SnocParts(turns, Batch(reqs));
    ByFile(file, turns, reqs);
    var a := Turns(Boot(file), turns);
    if Accepted(file, reqs) == [] {
      NothingAccepted(a.params, reqs);
      AllRejected(file, reqs);
    }
  }

  lemma {:induction false} AllRejected(t: Table, reqs: seq<Request>)
    requires Accepted(t, reqs) == []
    ensures Rejected(t, reqs) == reqs
  {
    if reqs != [] {
      AllRejected(t, Init(reqs));
    }
  }
}
