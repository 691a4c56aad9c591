/** The byte-capped ring of frames on disk: what an incremental save-then-evict keeps, against a
    specification over every frame ever saved. */
module FrameRing {
  import opened Basics
  import opened Names

  const NAME_DIGITS := 9

  function FrameName(n: nat): string {
    Padded(n, NAME_DIGITS) + ".jpg"
  }

  /** Under ten digits, names sort in the order they were given out. */
  lemma FrameNamesSort(m: nat, n: nat)
    requires m < Pow10(NAME_DIGITS) && n < Pow10(NAME_DIGITS)
    ensures Less(FrameName(m), FrameName(n)) <==> m < n
    ensures FrameName(m) == FrameName(n) <==> m == n
  {
    PaddedOrder(m, n, NAME_DIGITS);
    LessByHead(Padded(m, NAME_DIGITS), ".jpg", Padded(n, NAME_DIGITS), ".jpg");
    LessTotal(".jpg", ".jpg");
    var a, b := FrameName(m), FrameName(n);
    assert a[..NAME_DIGITS] == Padded(m, NAME_DIGITS) && b[..NAME_DIGITS] == Padded(n, NAME_DIGITS);
  }

  function Sum(sizes: seq<nat>): nat {
    if sizes == [] then 0 else Sum(Init(sizes)) + Last(sizes)
  }

  /** Where the longest suffix that fits the cap starts. */
  function KeptFrom(sizes: seq<nat>, cap: nat): (k: nat)
    ensures k <= |sizes|
    ensures Sum(sizes[k..]) <= cap
    ensures forall j :: 0 <= j < k ==> Sum(sizes[j..]) > cap
  {
    FirstFit(sizes, cap, 0)
  }

  function FirstFit(sizes: seq<nat>, cap: nat, from: nat): (k: nat)
    requires from <= |sizes| && forall j :: 0 <= j < from ==> Sum(sizes[j..]) > cap
    ensures from <= k <= |sizes|
    ensures Sum(sizes[k..]) <= cap
    ensures forall j :: 0 <= j < k ==> Sum(sizes[j..]) > cap
    decreases |sizes| - from
  {
    if from == |sizes| || Sum(sizes[from..]) <= cap then from else FirstFit(sizes, cap, from + 1)
  }

  /** The names of the frames saved from index k on, oldest first. */
  function FileNames(n: nat, k: nat): seq<string>
    requires k <= n
  {
    seq(n - k, i requires 0 <= i < n - k => FrameName(k + i + 1))
  }

  /** The directory holds exactly the frames saved from index k on, each with its size. */
  ghost predicate Holds(dir: map<string, nat>, sizes: seq<nat>, k: nat) {
    && k <= |sizes|
    && (forall x :: x in dir ==> x in FileNames(|sizes|, k))
    && (forall i :: k <= i < |sizes| ==> HasFrame(dir, sizes, i))
  }

  ghost predicate HasFrame(dir: map<string, nat>, sizes: seq<nat>, i: nat)
    requires i < |sizes|
  {
    FrameName(i + 1) in dir && dir[FrameName(i + 1)] == sizes[i]
  }

  lemma HoldsListing(dir: map<string, nat>, sizes: seq<nat>, k: nat)
    requires Holds(dir, sizes, k) && |sizes| < Pow10(NAME_DIGITS)
    ensures Listing(dir.Keys) == FileNames(|sizes|, k)
  {
    var q := FileNames(|sizes|, k);
    forall i, j | 0 <= i < j < |q|
      ensures Less(q[i], q[j])
    {
      FrameNamesSort(k + i + 1, k + j + 1);
    }
    forall x | x in q
      ensures x in dir
    {
      var i :| 0 <= i < |q| && q[i] == x;
      assert HasFrame(dir, sizes, k + i);
    }
    ListingIs(q, dir.Keys);
  }

  lemma AddNewest(dir: map<string, nat>, sizes: seq<nat>, k: nat, size: nat)
    requires Holds(dir, sizes, k) && |sizes| + 1 < Pow10(NAME_DIGITS)
    ensures Holds(dir[FrameName(|sizes| + 1) := size], sizes + [size], k)
  {
    var n := |sizes|;
    var dir' := dir[FrameName(n + 1) := size];
    assert FileNames(n + 1, k) == FileNames(n, k) + [FrameName(n + 1)];
    forall i | k <= i < n + 1
      ensures HasFrame(dir', sizes + [size], i)
    {
      FrameNamesSort(i + 1, n + 1);
      assert i < n ==> HasFrame(dir, sizes, i);
    }
  }

  /** Deleting the oldest file. */
  lemma DropOldest(dir: map<string, nat>, sizes: seq<nat>, k: nat)
    requires Holds(dir, sizes, k) && k < |sizes| < Pow10(NAME_DIGITS)
    ensures FrameName(k + 1) in dir && dir[FrameName(k + 1)] == sizes[k]
    ensures Holds(dir - {FrameName(k + 1)}, sizes, k + 1)
    ensures Sum(sizes[k..]) == sizes[k] + Sum(sizes[k + 1..])
  {
    SumHead(sizes[k..]);
    assert sizes[k..][1..] == sizes[k + 1..];
    assert HasFrame(dir, sizes, k);
    var n, dir' := |sizes|, dir - {FrameName(k + 1)};
    assert FileNames(n, k) == [FrameName(k + 1)] + FileNames(n, k + 1);
    forall i | k + 1 <= i < n
      ensures HasFrame(dir', sizes, i)
    {
      FrameNamesSort(i + 1, k + 1);
      assert HasFrame(dir, sizes, i);
    }
  }

  lemma {:induction false} SumHead(sizes: seq<nat>)
    requires sizes != []
    ensures Sum(sizes) == sizes[0] + Sum(sizes[1..])
  {
    if |sizes| > 1 {
      SumHead(Init(sizes));
      assert Init(sizes)[1..] == Init(sizes[1..]);
    }
  }

  /** A longer history keeps no older frame: where the kept suffix starts only moves forward. */
  lemma KeptFromGrows(sizes: seq<nat>, size: nat, cap: nat)
    ensures KeptFrom(sizes, cap) <= KeptFrom(sizes + [size], cap)
  {
    var k := KeptFrom(sizes + [size], cap);
    if k <= |sizes| {
      assert (sizes + [size])[k..] == sizes[k..] + [size];
      SnocParts(sizes[k..], size);
    }
  }

  function SizeOf(dir: map<string, nat>, names: seq<string>): nat
    requires forall x :: x in names ==> x in dir
  {
    if names == [] then 0 else dir[names[0]] + SizeOf(dir, names[1..])
  }

  lemma {:induction false} SizeOfKept(dir: map<string, nat>, sizes: seq<nat>, k: nat)
    requires Holds(dir, sizes, k) && forall x :: x in FileNames(|sizes|, k) ==> x in dir
    ensures SizeOf(dir, FileNames(|sizes|, k)) == Sum(sizes[k..])
    decreases |sizes| - k
  {
    SizeOfFrom(dir, sizes, k, k);
  }

  lemma {:induction false} SizeOfFrom(dir: map<string, nat>, sizes: seq<nat>, k: nat, j: nat)
    requires Holds(dir, sizes, k) && k <= j <= |sizes|
    requires forall x :: x in FileNames(|sizes|, j) ==> x in dir
    ensures SizeOf(dir, FileNames(|sizes|, j)) == Sum(sizes[j..])
    decreases |sizes| - j
  {
    if j < |sizes| {
      assert HasFrame(dir, sizes, j);
      assert FileNames(|sizes|, j) == [FrameName(j + 1)] + FileNames(|sizes|, j + 1);
      SizeOfFrom(dir, sizes, k, j + 1);
      SumHead(sizes[j..]);
      assert sizes[j..][1..] == sizes[j + 1..];
    }
  }

  lemma {:induction false} SizeOfSame(a: map<string, nat>, b: map<string, nat>, names: seq<string>)
    requires forall x :: x in names ==> x in a && x in b && a[x] == b[x]
    ensures SizeOf(a, names) == SizeOf(b, names)
  {
    if names != [] {
      SizeOfSame(a, b, names[1..]);
    }
  }

  // ----- Eviction -----------------------------------------------------------------------------

  lemma SizeOfTail(names: seq<string>, dir: map<string, nat>)
    requires ListedIn(names, dir) && names != []
    ensures ListedIn(names[1..], dir - {names[0]})
    ensures SizeOf(dir, names) == dir[names[0]] + SizeOf(dir - {names[0]}, names[1..])
  {
    TailListed(names, dir);
    SizeOfSame(dir, dir - {names[0]}, names[1..]);
  }

  /** The directory after deleting its first names until what is left fits. */
  function Evicted(dir: map<string, nat>, names: seq<string>, cap: nat): map<string, nat>
    requires ListedIn(names, dir)
    decreases |names|
  {
    if names == [] || SizeOf(dir, names) <= cap then dir
    else
      SizeOfTail(names, dir);
      Evicted(dir - {names[0]}, names[1..], cap)
  }

  lemma {:induction false} EvictedFits(dir: map<string, nat>, names: seq<string>, cap: nat)
    requires ListedIn(names, dir)
    ensures var left := Evicted(dir, names, cap); SizeOf(left, Listing(left.Keys)) <= cap
    decreases |names|
  {
    if names == [] || SizeOf(dir, names) <= cap {
      ListingIs(names, dir.Keys);
    } else {
      SizeOfTail(names, dir);
      EvictedFits(dir - {names[0]}, names[1..], cap);
    }
  }

  lemma HoldsNames(dir: map<string, nat>, sizes: seq<nat>, k: nat)
    requires Holds(dir, sizes, k) && ListedIn(FileNames(|sizes|, k), dir)
    ensures k <= |sizes| && forall x :: x in FileNames(|sizes|, k) ==> x in dir
    ensures if k == |sizes| then FileNames(|sizes|, k) == []
            else FileNames(|sizes|, k) == [FrameName(k + 1)] + FileNames(|sizes|, k + 1)
  {
  }

  lemma {:induction false} EvictedExact(dir: map<string, nat>, sizes: seq<nat>, k: nat, cap: nat)
    requires Holds(dir, sizes, k) && k <= KeptFrom(sizes, cap) && |sizes| < Pow10(NAME_DIGITS)
    requires ListedIn(FileNames(|sizes|, k), dir)
    ensures Holds(Evicted(dir, FileNames(|sizes|, k), cap), sizes, KeptFrom(sizes, cap))
    decreases |sizes| - k
  {
    hide Holds, ListedIn, SizeOf, Sum, FileNames, FrameName, Pow10;
    var names := FileNames(|sizes|, k);
    HoldsNames(dir, sizes, k);
    SizeOfKept(dir, sizes, k);
    if names != [] && SizeOf(dir, names) > cap {
      DropOldest(dir, sizes, k);
      SizeOfTail(names, dir);
      EvictedExact(dir - {names[0]}, sizes, k + 1, cap);
    }
  }

  class FrameRing {
    const cap: nat
    var n: nat
    var dir: map<string, nat>      // file name -> size in bytes
    ghost var saved: seq<nat>      // the size of every frame ever saved

    constructor (cap: nat)
      ensures this.cap == cap && n == 0 && dir == map[] && saved == []
      ensures Refines()
    {
      this.cap := cap;
      n, dir, saved := 0, map[], [];
    }

    /** The directory is the longest suffix of all frames ever saved that fits the cap. */
    ghost predicate Refines()
      reads this
    {
      n == |saved| && Holds(dir, saved, KeptFrom(saved, cap))
    }

    function DiskBytes(): nat
      reads this
    {
      SizeOf(dir, Listing(dir.Keys))
    }

    /** Save one frame, then delete smallest names until the directory fits the cap. */
    method Save(size: nat)
      modifies this
      ensures n == old(n) + 1 && saved == old(saved) + [size]
      ensures DiskBytes() <= cap
      ensures old(Refines()) && n < Pow10(NAME_DIGITS) ==> Refines()
    {
      n := n + 1;
      dir := dir[FrameName(n) := size];
      saved := saved + [size];
      ghost var full, names := dir, Listing(dir.Keys);
      EvictedFits(full, names, cap);
      if old(Refines()) && n < Pow10(NAME_DIGITS) {
        var from := KeptFrom(old(saved), cap);
        AddNewest(old(dir), old(saved), from, size);
        KeptFromGrows(old(saved), size, cap);
        HoldsListing(full, saved, from);
        EvictedExact(full, saved, from, cap);
      }
      Evict();
    }

    method Evict()
      modifies this`dir
      ensures dir == Evicted(old(dir), Listing(old(dir).Keys), cap)
    {
      var files := Listing(dir.Keys);
      var total := SizeOf(dir, files);
      var i := 0;
      assert files[0..] == files;
      while total > cap && i < |files|
        invariant i <= |files| && ListedIn(files[i..], dir)
        invariant total == SizeOf(dir, files[i..])
        invariant Evicted(dir, files[i..], cap) == Evicted(old(dir), files, cap)
      {
        SizeOfTail(files[i..], dir);
        assert files[i..][1..] == files[i + 1..];
        total := total - dir[files[i]];
        dir := dir - {files[i]};
        i := i + 1;
      }
    }
  }

  /** The tenth digit breaks the order: the 10^9-th frame sorts before its predecessor. */
  lemma TenDigitsMisorder()
    ensures Less(FrameName(1000000000), FrameName(999999999))
  {
    LeadingDigit(1000000000);
    LeadingDigit(999999999);
    assert |Decimal(1000000000)| >= NAME_DIGITS && |Decimal(999999999)| >= NAME_DIGITS;
  }

  function Leading(n: nat): nat {
    if n < 10 then n else Leading(n / 10)
  }

  lemma {:induction false} LeadingDigit(n: nat)
    ensures Leading(n) < 10 && Decimal(n)[0] == Digit(Leading(n))
  {
    if n >= 10 {
      LeadingDigit(n / 10);
    }
  }
}
