/** The file inbox: writers publish a request by renaming a finished temporary file; one owner lists the
    directory, then reads and deletes file by file. Proved over every interleaving of those steps,
    with writers that may crash half way and foreign garbage files. */
module Inbox {
  import opened Basics
  import opened Names

  type Request = int

  /** What a file holds: a request being written, a complete one, or something that does not parse. */
  datatype Content = Partial(req: Request) | Complete(req: Request) | Garbage

  /** The name a writer composes: time stamp, underscore, process id. */
  datatype Stamp = Stamp(ns: nat, pid: nat)

  function FileName(s: Stamp): string {
    Decimal(s.ns) + "_" + Decimal(s.pid) + ".json"
  }

  const WIDTH := 19

  /** Stamps of the era in which nanosecond times have nineteen digits. */
  predicate InEra(s: Stamp) {
    |Decimal(s.ns)| == WIDTH
  }

  lemma NamesSort(a: Stamp, b: Stamp)
    requires InEra(a) && InEra(b) && a.ns < b.ns
    ensures Less(FileName(a), FileName(b)) && FileName(a) != FileName(b)
  {
    DecimalOrder(a.ns, b.ns);
    var x, y := "_" + Decimal(a.pid) + ".json", "_" + Decimal(b.pid) + ".json";
    LessByHead(Decimal(a.ns), x, Decimal(b.ns), y);
    assert FileName(a) == Decimal(a.ns) + x && FileName(b) == Decimal(b.ns) + y;
    LessTotal(FileName(a), FileName(b));
  }

  datatype Delivery = Delivery(name: string, req: Request)

  datatype Writer = Resting | Writing(s: Stamp, req: Request) | Written(s: Stamp, req: Request)

  datatype Owner = Away | Draining(todo: seq<string>) | Deleting(name: string, todo: seq<string>)

  datatype Box = Box(
    temps: map<string, Content>,       // temporary files, by the name they will be published under
    files: map<string, Content>,       // published files
    writers: map<nat, Writer>,         // by process id
    clock: map<nat, nat>,              // the last stamp each process took
    owner: Owner,
    published: map<Stamp, Request>,    // every request ever published
    returned: seq<Delivery>,           // every request the owner returned, in order
    garbage: set<string>)              // names of foreign files that do not parse

  datatype Step =
    | Open(s: Stamp, req: Request)     // create the temporary file
    | Fill(pid: nat)                   // its text is complete
    | Rename(pid: nat)                 // publish it
    | Crash(pid: nat)                  // the process dies; its temporary file stays behind
    | Litter(name: string)             // something else drops a file that does not parse
    | List                             // the owner lists the directory, sorted
    | Read                             // the owner reads the next file
    | Delete                           // and deletes it

  function WriterAt(b: Box, pid: nat): Writer {
    if pid in b.writers then b.writers[pid] else Resting
  }

  /** Each process's stamps strictly rise, and nothing else uses its names. */
  ghost predicate Enabled(b: Box, step: Step) {
    match step
    case Open(s, _) => InEra(s) && WriterAt(b, s.pid).Resting? && (s.pid in b.clock ==> b.clock[s.pid] < s.ns)
    case Fill(pid) => WriterAt(b, pid).Writing?
    case Rename(pid) => WriterAt(b, pid).Written?
    case Crash(pid) => !WriterAt(b, pid).Resting?
    case Litter(name) => name !in b.files && forall s: Stamp :: name != FileName(s)
    case List => b.owner.Away?
    case Read => b.owner.Draining? && b.owner.todo != []
    case Delete => b.owner.Deleting?
  }

  function Next(b: Box, step: Step): Box
    requires Enabled(b, step)
  {
    match step
    case Open(s, req) =>
      b.(temps := b.temps[FileName(s) := Partial(req)],
         writers := b.writers[s.pid := Writing(s, req)], clock := b.clock[s.pid := s.ns])
    case Fill(pid) =>
      var w := b.writers[pid];
      b.(temps := b.temps[FileName(w.s) := Complete(w.req)], writers := b.writers[pid := Written(w.s, w.req)])
    case Rename(pid) =>
      var w := b.writers[pid];
      var name := FileName(w.s);
      b.(files := b.files[name := if name in b.temps then b.temps[name] else Garbage], temps := b.temps - {name},
         writers := b.writers[pid := Resting], published := b.published[w.s := w.req])
    case Crash(pid) => b.(writers := b.writers[pid := Resting])
    case Litter(name) => b.(files := b.files[name := Garbage], garbage := b.garbage + {name})
    case List => b.(owner := Draining(Listing(b.files.Keys)))
    case Read =>
      var name := b.owner.todo[0];
      var c := if name in b.files then b.files[name] else Garbage;
      b.(owner := Deleting(name, b.owner.todo[1..]),
         returned := if c.Complete? then b.returned + [Delivery(name, c.req)] else b.returned)
    case Delete =>
      b.(owner := if b.owner.todo == [] then Away else Draining(b.owner.todo), files := b.files - {b.owner.name})
  }

  // ----- The invariant ------------------------------------------------------------------------

  function ReturnedNames(returned: seq<Delivery>): seq<string> {
    seq(|returned|, i requires 0 <= i < |returned| => returned[i].name)
  }

  /** A request in the making has its process's latest stamp, and a temporary file of its own. */
  ghost predicate WriterSound(b: Box, pid: nat) {
    match WriterAt(b, pid)
    case Resting => true
    case Writing(s, req) => Claimed(b, pid, s)
    case Written(s, req) => Claimed(b, pid, s) && FileName(s) in b.temps && b.temps[FileName(s)] == Complete(req)
  }

  ghost predicate Claimed(b: Box, pid: nat, s: Stamp) {
    s.pid == pid && InEra(s) && pid in b.clock && b.clock[pid] == s.ns && s !in b.published
  }

  ghost predicate WritersSound(b: Box) {
    && (forall pid :: pid in b.writers ==> WriterSound(b, pid))
    && (forall s :: s in b.published ==> InEra(s) && s.pid in b.clock && s.ns <= b.clock[s.pid])
  }

  /** A published file is complete and is its request, or is foreign garbage. */
  ghost predicate FileSound(b: Box, name: string)
    requires name in b.files
  {
    if name in b.garbage then b.files[name] == Garbage
    else exists s :: s in b.published && FileName(s) == name && b.files[name] == Complete(b.published[s])
  }

  ghost predicate FilesSound(b: Box) {
    && (forall name :: name in b.files ==> FileSound(b, name))
    && (forall s: Stamp :: FileName(s) !in b.garbage)
  }

  ghost predicate DeliverySound(b: Box, d: Delivery) {
    exists s :: s in b.published && FileName(s) == d.name && d.req == b.published[s]
  }

  ghost predicate OnDisk(b: Box, name: string) {
    name in b.files && !(b.owner.Deleting? && b.owner.name == name)
  }

  /** Every published request is on disk or returned, never both; nothing is returned twice. */
  ghost predicate ReturnedSound(b: Box) {
    && (forall i :: 0 <= i < |b.returned| ==> DeliverySound(b, b.returned[i]))
    && (forall i, j :: 0 <= i < j < |b.returned| ==> b.returned[i].name != b.returned[j].name)
    && (forall s :: s in b.published ==> (FileName(s) in ReturnedNames(b.returned) <==> !OnDisk(b, FileName(s))))
  }

  function Todo(b: Box): seq<string> {
    match b.owner
    case Away => []
    case Draining(todo) => todo
    case Deleting(_, todo) => todo
  }

  /** What the owner still has to read is sorted and on disk. */
  ghost predicate TodoSound(b: Box) {
    && Sorted(Todo(b))
    && (forall name :: name in Todo(b) ==> OnDisk(b, name))
    && (b.owner.Deleting? ==> b.owner.name in b.files)
  }

  ghost predicate Before(a: Stamp, s: Stamp) {
    a.pid == s.pid && a.ns < s.ns
  }

  /** A writer's earlier request is listed, or returned, no later than its later one. */
  ghost predicate OrderSound(b: Box) {
    && (forall a, s :: a in b.published && s in b.published && Before(a, s) && FileName(s) in Todo(b) ==>
          FileName(a) in Todo(b) || FileName(a) in ReturnedNames(b.returned))
    && (forall a, s, j :: a in b.published && s in b.published && Before(a, s)
                          && 0 <= j < |b.returned| && b.returned[j].name == FileName(s) ==>
          FileName(a) in ReturnedNames(b.returned[..j]))
  }

  ghost predicate Inv(b: Box) {
    WritersSound(b) && FilesSound(b) && ReturnedSound(b) && TodoSound(b) && OrderSound(b)
  }

  function Empty(): Box {
    Box(map[], map[], map[], map[], Away, map[], [], {})
  }

  lemma EmptyInv()
    ensures Inv(Empty())
  {
  }

  // ----- Names --------------------------------------------------------------------------------

  lemma NamesDiffer(a: Stamp, s: Stamp)
    requires InEra(a) && InEra(s)
    ensures FileName(a) == FileName(s) <==> a == s
  {
    DecimalOrder(a.ns, s.ns);
    var x, y := FileName(a), FileName(s);
    if x == y {
      assert x[..WIDTH] == Decimal(a.ns) && y[..WIDTH] == Decimal(s.ns);
      assert x[WIDTH + 1..|x| - 5] == Decimal(a.pid) && y[WIDTH + 1..|y| - 5] == Decimal(s.pid);
      DecimalOrder(a.pid, s.pid);
    }
  }

  // ----- Every step keeps it ------------------------------------------------------------------

  lemma OpenInv(b: Box, s: Stamp, req: Request)
    requires Inv(b) && Enabled(b, Open(s, req))
    ensures Inv(Next(b, Open(s, req)))
  {
    hide FileName, OrderSound, ReturnedSound, TodoSound, FileSound;
    var b' := Next(b, Open(s, req));
    forall pid | pid in b'.writers
      ensures WriterSound(b', pid)
    {
      if pid != s.pid && !WriterAt(b, pid).Resting? {
        NamesDiffer(WriterAt(b, pid).s, s);
      }
    }
    SameDelivery(b, b');
  }

  /** Steps that touch neither the published files nor the owner. */
  lemma SameDelivery(b: Box, b': Box)
    requires b'.files == b.files && b'.published == b.published && b'.returned == b.returned
    requires b'.garbage == b.garbage && b'.owner == b.owner
    ensures FilesSound(b) ==> FilesSound(b')
    ensures ReturnedSound(b) ==> ReturnedSound(b')
    ensures TodoSound(b) ==> TodoSound(b')
    ensures OrderSound(b) ==> OrderSound(b')
  {
  }

  lemma FillInv(b: Box, pid: nat)
    requires Inv(b) && Enabled(b, Fill(pid))
    ensures Inv(Next(b, Fill(pid)))
  {
    hide FileName, OrderSound, ReturnedSound, TodoSound, FileSound;
    var b' := Next(b, Fill(pid));
    assert WriterSound(b, pid);
    forall q | q in b'.writers
      ensures WriterSound(b', q)
    {
      if q != pid && !WriterAt(b, q).Resting? {
        assert WriterSound(b, q);
        NamesDiffer(WriterAt(b, q).s, WriterAt(b, pid).s);
      }
    }
    SameDelivery(b, b');
  }

  lemma CrashInv(b: Box, pid: nat)
    requires Inv(b) && Enabled(b, Crash(pid))
    ensures Inv(Next(b, Crash(pid)))
  {
    hide FileName, OrderSound, ReturnedSound, TodoSound, FileSound;
    var b' := Next(b, Crash(pid));
    assert forall q :: q in b'.writers && q != pid ==> WriterSound(b, q);
    SameDelivery(b, b');
  }

  lemma RenameWriters(b: Box, pid: nat)
    requires Inv(b) && Enabled(b, Rename(pid))
    ensures WritersSound(Next(b, Rename(pid)))
  {
    hide FileName, OrderSound, ReturnedSound, TodoSound, FileSound;
    var b' := Next(b, Rename(pid));
    assert WriterSound(b, pid);
    forall q | q in b'.writers
      ensures WriterSound(b', q)
    {
      if q != pid && !WriterAt(b, q).Resting? {
        assert WriterSound(b, q);
        NamesDiffer(WriterAt(b, q).s, WriterAt(b, pid).s);
      }
    }
  }

  /** The new name is on no list: it was not a file, and was never returned. */
  lemma RenameIsNew(b: Box, pid: nat)
    requires Inv(b) && Enabled(b, Rename(pid))
    ensures var s := WriterAt(b, pid).s;
            && InEra(s) && s !in b.published && FileName(s) !in b.files && FileName(s) !in ReturnedNames(b.returned)
            && FileName(s) in b.temps && b.temps[FileName(s)] == Complete(WriterAt(b, pid).req)
            && (forall a :: a in b.published ==> FileName(a) != FileName(s))
            && (forall a :: a in b.published && a.pid == s.pid ==> a.ns < s.ns)
  {
    hide FileName, OrderSound;
    assert WriterSound(b, pid);
    var s := WriterAt(b, pid).s;
    forall a | a in b.published
      ensures FileName(a) != FileName(s) && (a.pid == s.pid ==> a.ns < s.ns)
    {
      NamesDiffer(a, s);
    }
    assert forall name :: name in b.files ==> FileSound(b, name);
    assert forall i :: 0 <= i < |b.returned| ==> DeliverySound(b, b.returned[i]);
  }

  lemma RenameFiles(b: Box, pid: nat)
    requires Inv(b) && Enabled(b, Rename(pid))
    ensures FilesSound(Next(b, Rename(pid)))
  {
    hide FileName, OrderSound, ReturnedSound, TodoSound, WritersSound;
    var b' := Next(b, Rename(pid));
    RenameIsNew(b, pid);
    var s := WriterAt(b, pid).s;
    forall name | name in b'.files
      ensures FileSound(b', name)
    {
      if name == FileName(s) {
        assert s in b'.published;
      } else {
        assert FileSound(b, name);
        if name !in b.garbage {
          var a :| a in b.published && FileName(a) == name && b.files[name] == Complete(b.published[a]);
          assert a in b'.published;
        }
      }
    }
  }

  lemma RenameOwner(b: Box, pid: nat)
    requires Inv(b) && Enabled(b, Rename(pid))
    ensures var b' := Next(b, Rename(pid)); ReturnedSound(b') && TodoSound(b') && OrderSound(b')
  {
    hide FileName, FilesSound, WritersSound;
    var b' := Next(b, Rename(pid));
    RenameIsNew(b, pid);
    var s := WriterAt(b, pid).s;
    forall i | 0 <= i < |b'.returned|
      ensures DeliverySound(b', b'.returned[i])
    {
      assert DeliverySound(b, b.returned[i]);
      var a :| a in b.published && FileName(a) == b.returned[i].name && b.returned[i].req == b.published[a];
      assert a in b'.published;
    }
    forall a, t, j | a in b'.published && t in b'.published && Before(a, t)
                     && 0 <= j < |b'.returned| && b'.returned[j].name == FileName(t)
      ensures FileName(a) in ReturnedNames(b'.returned[..j])
    {
      assert ReturnedNames(b.returned)[j] == FileName(t);
    }
  }

  lemma RenameInv(b: Box, pid: nat)
    requires Inv(b) && Enabled(b, Rename(pid))
    ensures Inv(Next(b, Rename(pid)))
  {
    hide FileName, OrderSound, ReturnedSound, TodoSound, WritersSound, FilesSound;
    RenameWriters(b, pid);
    RenameFiles(b, pid);
    RenameOwner(b, pid);
  }

  lemma LitterFiles(b: Box, name: string)
    requires FilesSound(b) && Enabled(b, Litter(name))
    ensures FilesSound(Next(b, Litter(name)))
  {
    hide FileName;
    var b' := Next(b, Litter(name));
    assert forall x :: x in b.files ==> FileSound(b, x);
    forall x | x in b'.files
      ensures FileSound(b', x)
    {
      if x != name && x !in b.garbage {
        var a :| a in b.published && FileName(a) == x && b.files[x] == Complete(b.published[a]);
        assert a in b'.published;
      }
    }
  }

  lemma LitterOwner(b: Box, name: string)
    requires ReturnedSound(b) && TodoSound(b) && OrderSound(b) && Enabled(b, Litter(name))
    ensures var b' := Next(b, Litter(name)); ReturnedSound(b') && TodoSound(b') && OrderSound(b')
  {
    hide FileName;
    assert forall i :: 0 <= i < |b.returned| ==> DeliverySound(b, b.returned[i]);
  }

  lemma LitterInv(b: Box, name: string)
    requires Inv(b) && Enabled(b, Litter(name))
    ensures Inv(Next(b, Litter(name)))
  {
    hide FileName, FilesSound, ReturnedSound, TodoSound, OrderSound;
    LitterFiles(b, name);
    LitterOwner(b, name);
    assert forall pid :: pid in b.writers ==> WriterSound(b, pid);
  }

  /** Steps of the owner that leave the files alone. */
  lemma SameFiles(b: Box, b': Box)
    requires b'.files == b.files && b'.published == b.published && b'.garbage == b.garbage
    requires b'.writers == b.writers && b'.temps == b.temps && b'.clock == b.clock
    ensures FilesSound(b) ==> FilesSound(b')
    ensures WritersSound(b) ==> WritersSound(b')
  {
    if FilesSound(b) {
      forall name | name in b'.files
        ensures FileSound(b', name)
      {
        assert FileSound(b, name);
      }
    }
    if WritersSound(b) {
      forall pid | pid in b'.writers
        ensures WriterSound(b', pid)
      {
        assert WriterSound(b, pid);
      }
    }
  }

  /** A fresh listing: everything on disk is still to be read. */
  lemma ListOwner(b: Box)
    requires ReturnedSound(b) && TodoSound(b) && Enabled(b, List)
    ensures var b' := Next(b, List); ReturnedSound(b') && TodoSound(b')
  {
    hide FileName, Less;
    var b' := Next(b, List);
    forall i | 0 <= i < |b'.returned|
      ensures DeliverySound(b', b'.returned[i])
    {
      assert DeliverySound(b, b.returned[i]);
    }
  }

  lemma ListOrder(b: Box)
    requires ReturnedSound(b) && OrderSound(b) && Enabled(b, List)
    ensures OrderSound(Next(b, List))
  {
    hide FileName, DeliverySound, Sorted;
  }

  lemma ListInv(b: Box)
    requires Inv(b) && Enabled(b, List)
    ensures Inv(Next(b, List))
  {
    hide FileName, FilesSound, WritersSound, ReturnedSound, TodoSound, OrderSound;
    SameFiles(b, Next(b, List));
    ListOwner(b);
    ListOrder(b);
  }

  ghost predicate Yields(b: Box, name: string, s: Stamp, b': Box)
    requires name in b.files && s in b.published
  {
    && FileName(s) == name
    && b.files[name] == Complete(b.published[s])
    && b'.returned == b.returned + [Delivery(name, b.published[s])]
  }

  /** Reading the next file: it is its request, complete, or garbage; and it is now returned, not on disk. */
  lemma ReadOne(b: Box)
    requires Inv(b) && Enabled(b, Read)
    ensures var name := b.owner.todo[0]; var b' := Next(b, Read);
            && name in b.files && name !in ReturnedNames(b.returned) && name !in b.owner.todo[1..]
            && (name in b.garbage ==> b.files[name] == Garbage && b'.returned == b.returned)
            && (name !in b.garbage ==> exists s :: s in b.published && Yields(b, name, s, b'))
  {
    hide FileName, OrderSound, WritersSound;
    var name := b.owner.todo[0];
    assert name in Todo(b) && FileSound(b, name);
    assert forall i :: 0 <= i < |b.returned| ==> DeliverySound(b, b.returned[i]);
    if name !in b.garbage {
      var s :| s in b.published && FileName(s) == name && b.files[name] == Complete(b.published[s]);
      assert Yields(b, name, s, Next(b, Read));
    }
    forall i | 1 <= i < |b.owner.todo|
      ensures b.owner.todo[i] != name
    {
      LessTotal(name, name);
    }
  }

  lemma ReturnedSnoc(returned: seq<Delivery>, d: Delivery)
    ensures ReturnedNames(returned + [d]) == ReturnedNames(returned) + [d.name]
  {
  }

  lemma ReadTodo(b: Box)
    requires Inv(b) && Enabled(b, Read)
    ensures TodoSound(Next(b, Read))
  {
    hide FileName, OrderSound, WritersSound, FilesSound, ReturnedSound;
    ReadOne(b);
    var todo := Todo(Next(b, Read));
    assert forall i :: 0 <= i < |todo| ==> todo[i] == Todo(b)[i + 1];
    forall name | name in todo
      ensures OnDisk(Next(b, Read), name)
    {
      assert name in Todo(b);
    }
  }

  lemma ReadReturned(b: Box)
    requires Inv(b) && Enabled(b, Read)
    ensures ReturnedSound(Next(b, Read))
  {
    hide FileName, OrderSound, WritersSound, FilesSound;
    var b' := Next(b, Read);
    var name := b.owner.todo[0];
    ReadOne(b);
    if b'.returned != b.returned {
      ReturnedSnoc(b.returned, Last(b'.returned));
    }
    assert forall i :: 0 <= i < |b.returned| ==> ReturnedNames(b.returned)[i] == b.returned[i].name;
    forall i | 0 <= i < |b'.returned|
      ensures DeliverySound(b', b'.returned[i])
    {
      if i < |b.returned| {
        assert DeliverySound(b, b.returned[i]);
      }
    }
    forall s | s in b'.published
      ensures FileName(s) in ReturnedNames(b'.returned) <==> !OnDisk(b', FileName(s))
    {
      assert FileName(s) !in b.garbage by { NotGarbage(b, s); }
    }
  }

  lemma NotGarbage(b: Box, s: Stamp)
    requires FilesSound(b)
    ensures FileName(s) !in b.garbage
  {
  }

  lemma ReadOrder(b: Box)
    requires Inv(b) && Enabled(b, Read)
    ensures OrderSound(Next(b, Read))
  {
    hide FileName, WritersSound, FilesSound;
    var b' := Next(b, Read);
    var name := b.owner.todo[0];
    ReadOne(b);
    assert b.owner.todo == [name] + b.owner.todo[1..];
    if b'.returned != b.returned {
      ReturnedSnoc(b.returned, Last(b'.returned));
    }
    forall a, s | a in b'.published && s in b'.published && Before(a, s) && FileName(s) in Todo(b')
      ensures FileName(a) in Todo(b') || FileName(a) in ReturnedNames(b'.returned)
    {
      NotGarbage(b, a);
      assert FileName(s) in Todo(b);
    }
    forall a, s, j | a in b'.published && s in b'.published && Before(a, s)
                     && 0 <= j < |b'.returned| && b'.returned[j].name == FileName(s)
      ensures FileName(a) in ReturnedNames(b'.returned[..j])
    {
      if j == |b.returned| {
        assert FileName(s) == name && FileName(s) in Todo(b);
        EarlierSortsFirst(b, a, s);
        assert b'.returned[..j] == b.returned;
      } else {
        assert b'.returned[..j] == b.returned[..j];
      }
    }
  }

  lemma EarlierSortsFirst(b: Box, a: Stamp, s: Stamp)
    requires WritersSound(b) && TodoSound(b) && Todo(b) != [] && Todo(b)[0] == FileName(s)
    requires a in b.published && s in b.published && Before(a, s)
    ensures FileName(a) !in Todo(b)
  {
    NamesSort(a, s);
    if FileName(a) in Todo(b) {
      var i :| 0 <= i < |Todo(b)| && Todo(b)[i] == FileName(a);
      LessTotal(FileName(a), FileName(s));
    }
  }

  lemma ReadInv(b: Box)
    requires Inv(b) && Enabled(b, Read)
    ensures Inv(Next(b, Read))
  {
    hide FileName, OrderSound, ReturnedSound, TodoSound, WritersSound, FilesSound;
    SameFiles(b, Next(b, Read));
    ReadTodo(b);
    ReadReturned(b);
    ReadOrder(b);
  }

  lemma DeleteFiles(b: Box)
    requires FilesSound(b) && WritersSound(b) && Enabled(b, Delete)
    ensures FilesSound(Next(b, Delete)) && WritersSound(Next(b, Delete))
  {
    hide FileName;
    var b' := Next(b, Delete);
    forall name | name in b'.files
      ensures FileSound(b', name)
    {
      assert FileSound(b, name);
    }
    forall pid | pid in b'.writers
      ensures WriterSound(b', pid)
    {
      assert WriterSound(b, pid);
    }
  }

  lemma DeleteOwner(b: Box)
    requires ReturnedSound(b) && TodoSound(b) && OrderSound(b) && Enabled(b, Delete)
    ensures var b' := Next(b, Delete); ReturnedSound(b') && TodoSound(b') && OrderSound(b')
  {
    hide FileName, Less;
    var b' := Next(b, Delete);
    forall i | 0 <= i < |b'.returned|
      ensures DeliverySound(b', b'.returned[i])
    {
      assert DeliverySound(b, b.returned[i]);
    }
    assert Todo(b') == Todo(b);
  }

  lemma DeleteInv(b: Box)
    requires Inv(b) && Enabled(b, Delete)
    ensures Inv(Next(b, Delete))
  {
    hide FileName, FilesSound, WritersSound, ReturnedSound, TodoSound, OrderSound;
    DeleteFiles(b);
    DeleteOwner(b);
  }

  lemma NextInv(b: Box, step: Step)
    requires Inv(b) && Enabled(b, step)
    ensures Inv(Next(b, step))
  {
    hide Inv, FileName, Next;
    match step
    case Open(s, req) => OpenInv(b, s, req);
    case Fill(pid) => FillInv(b, pid);
    case Rename(pid) => RenameInv(b, pid);
    case Crash(pid) => CrashInv(b, pid);
    case Litter(name) => LitterInv(b, name);
    case List => ListInv(b);
    case Read => ReadInv(b);
    case Delete => DeleteInv(b);
  }

  // ----- Over every run -----------------------------------------------------------------------

  ghost predicate IsRun(bs: seq<Box>, steps: seq<Step>) {
    && |bs| == |steps| + 1 && bs[0] == Empty()
    && forall i :: 0 <= i < |steps| ==> Enabled(bs[i], steps[i]) && bs[i + 1] == Next(bs[i], steps[i])
  }

  lemma {:induction false} RunInv(bs: seq<Box>, steps: seq<Step>, i: nat)
    requires IsRun(bs, steps) && i < |bs|
    ensures Inv(bs[i])
  {
    hide Inv, Enabled, Next;
    if i == 0 {
      EmptyInv();
    } else {
      RunInv(bs, steps, i - 1);
      assert bs[i - 1 + 1] == Next(bs[i - 1], steps[i - 1]);
      NextInv(bs[i - 1], steps[i - 1]);
    }
  }

  /** The owner only ever reads complete requests, or foreign garbage: never a request being written. */
  lemma OnlyCompleteRead(bs: seq<Box>, steps: seq<Step>, i: nat)
    requires IsRun(bs, steps) && i < |steps| && steps[i].Read?
    ensures var name := bs[i].owner.todo[0];
            && name in bs[i].files && !bs[i].files[name].Partial?
            && (bs[i].files[name].Garbage? <==> name in bs[i].garbage)
  {
    hide Inv, Next;
    RunInv(bs, steps, i);
    ReadOne(bs[i]);
  }

  /** Every published request is still on disk, or was returned exactly once with the content submitted; and
      nothing else is ever returned. */
  lemma ExactlyOnce(bs: seq<Box>, steps: seq<Step>)
    requires IsRun(bs, steps)
    ensures var b := Last(bs);
            && (forall s :: s in b.published ==>
                  if OnDisk(b, FileName(s)) then FileName(s) !in ReturnedNames(b.returned)
                  else exists i :: 0 <= i < |b.returned| && b.returned[i] == Delivery(FileName(s), b.published[s]))
            && (forall i, j :: 0 <= i < j < |b.returned| ==> b.returned[i].name != b.returned[j].name)
            && (forall i :: 0 <= i < |b.returned| ==> DeliverySound(b, b.returned[i]))
  {
    hide FileName, OrderSound, TodoSound, FilesSound, Next, Enabled;
    RunInv(bs, steps, |bs| - 1);
    var b := Last(bs);
    forall s | s in b.published && !OnDisk(b, FileName(s))
      ensures exists i :: 0 <= i < |b.returned| && b.returned[i] == Delivery(FileName(s), b.published[s])
    {
      var i :| 0 <= i < |b.returned| && ReturnedNames(b.returned)[i] == FileName(s);
      assert DeliverySound(b, b.returned[i]);
      var a :| a in b.published && FileName(a) == FileName(s) && b.returned[i].req == b.published[a];
      NamesDiffer(a, s);
    }
  }

  /** A writer's requests are returned in the order it submitted them, across any number of drains: when one has
      been returned, every earlier one was returned before it. */
  lemma ReturnedInOrder(bs: seq<Box>, steps: seq<Step>, a: Stamp, s: Stamp, j: nat)
    requires IsRun(bs, steps) && a in Last(bs).published && s in Last(bs).published && a.pid == s.pid && a.ns < s.ns
    requires j < |Last(bs).returned| && Last(bs).returned[j].name == FileName(s)
    ensures exists i :: 0 <= i < j && Last(bs).returned[i].name == FileName(a)
  {
    hide FileName, WritersSound, ReturnedSound, TodoSound, FilesSound, Next, Enabled;
    RunInv(bs, steps, |bs| - 1);
    var b := Last(bs);
    assert Before(a, s);
    assert FileName(a) in ReturnedNames(b.returned[..j]);
    var i :| 0 <= i < j && ReturnedNames(b.returned[..j])[i] == FileName(a);
    assert b.returned[i].name == FileName(a);
  }

  // ----- What a drain owes --------------------------------------------------------------------

  /** A published request that is still to be read by the drain under way, or has been returned. */
  ghost predicate Due(b: Box, s: Stamp) {
    FileName(s) in Todo(b) || FileName(s) in ReturnedNames(b.returned)
  }

  /** Reading the next file settles it, and leaves every other request where it is. */
  lemma ReadDue(b: Box, s: Stamp)
    requires Inv(b) && Enabled(b, Read) && Due(b, s)
    ensures Due(Next(b, Read), s)
  {
    hide FileName, OrderSound, WritersSound, ReturnedSound, TodoSound, DeliverySound;
    var name := b.owner.todo[0];
    ReadOne(b);
    assert b.owner.todo == [name] + b.owner.todo[1..];
    NotGarbage(b, s);
    if Next(b, Read).returned != b.returned {
      ReturnedSnoc(b.returned, Last(Next(b, Read).returned));
    }
  }

  /** Whatever writers, crashes and litter do, only a new listing could drop a request from a drain. */
  lemma NextDue(b: Box, step: Step, s: Stamp)
    requires Inv(b) && Enabled(b, step) && Due(b, s) && !step.List?
    ensures Due(Next(b, step), s)
  {
    hide Inv, FileName;
    if step.Read? {
      ReadDue(b, s);
    }
  }

  /** Just listed, every published request is due: it is on the list, or was returned before. */
  lemma ListedDue(b: Box, s: Stamp)
    requires Inv(b) && Enabled(b, List) && s in b.published
    ensures Due(Next(b, List), s)
  {
    hide FileName, OrderSound, WritersSound, FilesSound, TodoSound, DeliverySound;
    assert FileName(s) in ReturnedNames(b.returned) <==> !OnDisk(b, FileName(s));
  }

  /** No listing between the one at step i and state j. */
  ghost predicate SameDrain(steps: seq<Step>, i: nat, j: nat)
    requires i < j <= |steps|
  {
    steps[i].List? && forall k :: i < k < j ==> !steps[k].List?
  }

  lemma {:induction false} StaysDue(bs: seq<Box>, steps: seq<Step>, i: nat, j: nat, s: Stamp)
    requires IsRun(bs, steps) && i < j < |bs| && SameDrain(steps, i, j) && s in bs[i].published
    ensures Due(bs[j], s)
    decreases j
  {
    hide Inv, Due, Next, Enabled;
    RunInv(bs, steps, j - 1);
    assert Enabled(bs[j - 1], steps[j - 1]) && bs[j - 1 + 1] == Next(bs[j - 1], steps[j - 1]);
    if j == i + 1 {
      ListedDue(bs[i], s);
    } else {
      StaysDue(bs, steps, i, j - 1, s);
      NextDue(bs[j - 1], steps[j - 1], s);
    }
  }

  /** A finished drain has returned every request published before it listed the directory, by its name and with the
      content submitted, whatever went on meanwhile. With ExactlyOnce: returned exactly once. */
  lemma DrainReturnsAll(bs: seq<Box>, steps: seq<Step>, i: nat, j: nat, s: Stamp) returns (p: nat)
    requires IsRun(bs, steps) && i < j < |bs| && SameDrain(steps, i, j) && bs[j].owner.Away?
    requires s in bs[i].published
    ensures p < |bs[j].returned| && bs[j].returned[p] == Delivery(FileName(s), bs[i].published[s])
  {
    hide FileName, OrderSound, TodoSound, FilesSound, Next, Enabled;
    StaysDue(bs, steps, i, j, s);
    p :| 0 <= p < |bs[j].returned| && ReturnedNames(bs[j].returned)[p] == FileName(s);
    RunInv(bs, steps, j);
    PublishedKeeps(bs, steps, i, j, s);
    assert DeliverySound(bs[j], bs[j].returned[p]);
    var a :| a in bs[j].published && FileName(a) == bs[j].returned[p].name
      && bs[j].returned[p].req == bs[j].published[a];
    NamesDiffer(a, s);
  }

  /** A published request stays what it is. */
  lemma {:induction false} PublishedKeeps(bs: seq<Box>, steps: seq<Step>, i: nat, j: nat, s: Stamp)
    requires IsRun(bs, steps) && i <= j < |bs| && s in bs[i].published
    ensures s in bs[j].published && bs[j].published[s] == bs[i].published[s]
    decreases j
  {
    hide Inv, FileName, Enabled, Next;
    if i < j {
      PublishedKeeps(bs, steps, i, j - 1, s);
      RunInv(bs, steps, j - 1);
      assert Enabled(bs[j - 1], steps[j - 1]) && bs[j - 1 + 1] == Next(bs[j - 1], steps[j - 1]);
      NextPublished(bs[j - 1], steps[j - 1], s);
    }
  }

  lemma NextPublished(b: Box, step: Step, s: Stamp)
    requires Inv(b) && Enabled(b, step) && s in b.published
    ensures s in Next(b, step).published && Next(b, step).published[s] == b.published[s]
  {
    hide Inv, FileName;
    if step.Rename? {
      RenameIsNew(b, step.pid);
    }
  }

  // ----- The drain itself ---------------------------------------------------------------------

  /** The complete requests among these files, in order; what does not parse is dropped. */
  function Parsed(files: map<string, Content>, names: seq<string>): seq<Request>
    requires forall n :: n in names ==> n in files
  {
    if names == [] then []
    else (if files[names[0]].Complete? then [files[names[0]].req] else []) + Parsed(files, names[1..])
  }

  lemma {:induction false} ParsedSame(a: map<string, Content>, b: map<string, Content>, names: seq<string>)
    requires forall n :: n in names ==> n in a && n in b && a[n] == b[n]
    ensures Parsed(a, names) == Parsed(b, names)
  {
    if names != [] {
      ParsedSame(a, b, names[1..]);
    }
  }

  /** How many of the first i files are complete requests. */
  function CompleteBefore(files: map<string, Content>, names: seq<string>, i: nat): (k: nat)
    requires i <= |names| && forall n :: n in names ==> n in files
    ensures k <= i
  {
    if i == 0 then 0
    else CompleteBefore(files, names, i - 1) + if files[names[i - 1]].Complete? then 1 else 0
  }

  lemma {:induction false} CompleteTail(files: map<string, Content>, names: seq<string>, i: nat)
    requires 0 < i <= |names| && forall n :: n in names ==> n in files
    ensures CompleteBefore(files, names, i) ==
            (if files[names[0]].Complete? then 1 else 0) + CompleteBefore(files, names[1..], i - 1)
  {
    if i > 1 {
      CompleteTail(files, names, i - 1);
      assert names[1..][i - 2] == names[i - 1];
    } else {
      assert CompleteBefore(files, names, 0) == 0;
    }
  }

  /** Every complete request is returned, in its place among the complete ones, and nothing else is. */
  lemma {:induction false} ParsedExact(files: map<string, Content>, names: seq<string>)
    requires forall n :: n in names ==> n in files
    ensures |Parsed(files, names)| == CompleteBefore(files, names, |names|)
    ensures forall i :: 0 <= i < |names| && files[names[i]].Complete? ==>
              CompleteBefore(files, names, i) < |Parsed(files, names)|
              && Parsed(files, names)[CompleteBefore(files, names, i)] == files[names[i]].req
  {
    if names != [] {
      var rest := names[1..];
      ParsedExact(files, rest);
      CompleteTail(files, names, |names|);
      forall i | 0 <= i < |names| && files[names[i]].Complete?
        ensures CompleteBefore(files, names, i) < |Parsed(files, names)|
        ensures Parsed(files, names)[CompleteBefore(files, names, i)] == files[names[i]].req
      {
        if i > 0 {
          CompleteTail(files, names, i);
          assert rest[i - 1] == names[i];
        }
      }
    }
  }

  lemma ParsedTail(files: map<string, Content>, names: seq<string>)
    requires ListedIn(names, files) && names != []
    ensures ListedIn(names[1..], files - {names[0]})
    ensures Parsed(files, names) ==
            (if files[names[0]].Complete? then [files[names[0]].req] else []) + Parsed(files - {names[0]}, names[1..])
  {
    TailListed(names, files);
    ParsedSame(files, files - {names[0]}, names[1..]);
  }

  lemma NothingParsed(files: map<string, Content>)
    ensures Parsed(files, []) == []
  {
  }

  class Directory {
    var files: map<string, Content>

    constructor (files: map<string, Content>)
      ensures this.files == files
    {
      this.files := files;
    }

    /** List once, then read and delete one file after another: the complete requests in name order; the
        directory is left empty. */
    method Drain() returns (out: seq<Request>)
      modifies this
      ensures out == Parsed(old(files), Listing(old(files).Keys))
      ensures files == map[]
    {
      hide Parsed, Sorted;
      out := [];
      var names := Listing(files.Keys);
      var i := 0;
      assert names[0..] == names;
      while i < |names|
        invariant i <= |names| && ListedIn(names[i..], files)
        invariant out + Parsed(files, names[i..]) == Parsed(old(files), names)
      {
        ParsedTail(files, names[i..]);
        assert names[i..][1..] == names[i + 1..];
        var content := files[names[i]];
        files := files - {names[i]};
        i := i + 1;
        if content.Complete? {
          Assoc(out, [content.req], Parsed(files, names[i..]));
          out := out + [content.req];
        } else {
          assert [] + Parsed(files, names[i..]) == Parsed(files, names[i..]);
        }
      }
      NothingParsed(files);
      assert names[i..] == [] && out + [] == out;
    }
  }
}
