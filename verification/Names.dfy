/** File names made of decimal numbers, and the order a directory listing is sorted in. */
module Names {
  import opened Basics

  function Digit(d: nat): char
    requires d < 10
  {
    ('0' as int + d) as char
  }

  /** A natural number as printed. */
  function Decimal(n: nat): (s: string)
    ensures s != []
  {
    if n < 10 then [Digit(n)] else Decimal(n / 10) + [Digit(n % 10)]
  }

  /** A natural number as printed with leading zeros to at least w characters. */
  function Padded(n: nat, w: nat): string {
    seq(if |Decimal(n)| < w then w - |Decimal(n)| else 0, _ => '0') + Decimal(n)
  }

  /** String comparison: the first difference decides; a proper prefix is smaller. */
  predicate Less(a: string, b: string) {
    if b == [] then false
    else if a == [] then true
    else if a[0] != b[0] then a[0] < b[0]
    else Less(a[1..], b[1..])
  }

  lemma {:induction false} LessTrans(a: string, b: string, d: string)
    requires Less(a, b) && Less(b, d)
    ensures Less(a, d)
  {
    if a != [] && a[0] == b[0] == d[0] {
      LessTrans(a[1..], b[1..], d[1..]);
    }
  }

  lemma {:induction false} LessTotal(a: string, b: string)
    ensures Less(a, b) || a == b || Less(b, a)
    ensures !(Less(a, b) && Less(b, a)) && !Less(a, a)
  {
    if a != [] && b != [] {
      LessTotal(a[1..], b[1..]);
      LessTotal(a[1..], a[1..]);
      assert a == [a[0]] + a[1..] && b == [b[0]] + b[1..];
    } else if a != [] {
      LessTotal(a[1..], a[1..]);
    }
  }

  /** Heads of equal length decide first. */
  lemma {:induction false} LessByHead(a: string, x: string, b: string, y: string)
    requires |a| == |b|
    ensures Less(a + x, b + y) <==> Less(a, b) || (a == b && Less(x, y))
    decreases |a|
  {
    if a == [] {
      assert a + x == x && b + y == y;
    } else {
      LessByHead(a[1..], x, b[1..], y);
      assert (a + x)[1..] == a[1..] + x && (b + y)[1..] == b[1..] + y;
      assert a == [a[0]] + a[1..] && b == [b[0]] + b[1..];
    }
  }

  // ----- Decimal order ------------------------------------------------------------------------

  lemma DigitOrder(m: nat, n: nat)
    requires m < 10 && n < 10
    ensures Less([Digit(m)], [Digit(n)]) <==> m < n
    ensures Digit(m) == Digit(n) <==> m == n
  {
    assert Less([Digit(m)], [Digit(n)]) <==> Digit(m) < Digit(n) by {
      assert [Digit(m)][1..] == [] && [Digit(n)][1..] == [];
    }
  }

  /** Numbers printed with equally many digits sort as numbers, and differ as names when they differ. */
  lemma {:induction false} DecimalOrder(m: nat, n: nat)
    requires |Decimal(m)| == |Decimal(n)|
    ensures Less(Decimal(m), Decimal(n)) <==> m < n
    ensures Decimal(m) == Decimal(n) <==> m == n
    decreases m
  {
    if m < 10 {
      DigitOrder(m, n);
    } else {
      DecimalOrder(m / 10, n / 10);
      DigitOrder(m % 10, n % 10);
      LessByHead(Decimal(m / 10), [Digit(m % 10)], Decimal(n / 10), [Digit(n % 10)]);
      assert m == m / 10 * 10 + m % 10 && n == n / 10 * 10 + n % 10;
      assert Decimal(m) == Decimal(n) ==> Init(Decimal(m)) == Init(Decimal(n)) && Last(Decimal(m)) == Last(Decimal(n));
    }
  }

  function Pow10(w: nat): nat {
    if w == 0 then 1 else 10 * Pow10(w - 1)
  }

  lemma PaddedSplit(n: nat, w: nat)
    requires w >= 2
    ensures Padded(n, w) == Padded(n / 10, w - 1) + [Digit(n % 10)]
  {
    if n < 10 {
      assert Decimal(n / 10) == ['0'];
    }
  }

  lemma {:induction false} PaddedOrder(m: nat, n: nat, w: nat)
    requires w > 0 && m < Pow10(w) && n < Pow10(w)
    ensures |Padded(m, w)| == w == |Padded(n, w)|
    ensures Less(Padded(m, w), Padded(n, w)) <==> m < n
    ensures Padded(m, w) == Padded(n, w) <==> m == n
    decreases w
  {
    if w == 1 {
      assert Pow10(0) == 1;
      assert Padded(m, 1) == [Digit(m)] && Padded(n, 1) == [Digit(n)];
      DigitOrder(m, n);
    } else {
      PaddedSplit(m, w);
      PaddedSplit(n, w);
      PaddedOrder(m / 10, n / 10, w - 1);
      DigitOrder(m % 10, n % 10);
      var a, x, b, y := Padded(m / 10, w - 1), [Digit(m % 10)], Padded(n / 10, w - 1), [Digit(n % 10)];
      LessByHead(a, x, b, y);
      assert a + x == b + y ==> Init(a + x) == Init(b + y) && Last(a + x) == Last(b + y);
      assert m == m / 10 * 10 + m % 10 && n == n / 10 * 10 + n % 10;
    }
  }

  // ----- A directory listing ------------------------------------------------------------------

  ghost predicate Sorted(names: seq<string>) {
    forall i, j :: 0 <= i < j < |names| ==> Less(names[i], names[j])
  }

  lemma {:induction false} FirstExists(names: set<string>) returns (m: string)
    requires names != {}
    ensures m in names && forall k :: k in names ==> k == m || Less(m, k)
  {
    var x :| x in names;
    if names == {x} {
      m := x;
    } else {
      var n := FirstExists(names - {x});
      LessTotal(n, x);
      m := if Less(n, x) then n else x;
      forall k | k in names
        ensures k == m || Less(m, k)
      {
        if k != x && k != n && m == x {
          assert k in names - {x};
          LessTrans(x, n, k);
        }
      }
    }
  }

  function First(names: set<string>): (m: string)
    requires names != {}
    ensures m in names && forall k :: k in names ==> k == m || Less(m, k)
  {
    assert exists m :: m in names && forall k :: k in names ==> k == m || Less(m, k) by {
      var m := FirstExists(names);
    }
    assert forall a, b :: Less(a, b) ==> !Less(b, a) by {
      forall a, b ensures Less(a, b) ==> !Less(b, a) { LessTotal(a, b); }
    }
    var m :| m in names && forall k :: k in names ==> k == m || Less(m, k);
    m
  }

  function Listing(names: set<string>): (q: seq<string>)
    ensures forall k :: k in q <==> k in names
    ensures Sorted(q) && |q| == |names|
    decreases |names|
  {
    if names == {} then [] else [First(names)] + Listing(names - {First(names)})
  }

  /** A set has only one listing. */
  lemma {:induction false} ListingIs(q: seq<string>, names: set<string>)
    requires Sorted(q) && forall k :: k in q <==> k in names
    ensures q == Listing(names)
    decreases |q|
  {
    if q != [] {
      assert q[0] in names;
      var m := First(names);
      assert m in q;
      var i :| 0 <= i < |q| && q[i] == m;
      LessTotal(q[0], m);
      assert q[0] == m;
      forall k
        ensures k in q[1..] <==> k in names - {m}
      {
        LessTotal(m, m);
        assert k in q[1..] ==> Less(m, k);
        assert q == [q[0]] + q[1..];
      }
      ListingIs(q[1..], names - {m});
    } else {
      assert names == {};
    }
  }

  /** The names are a listing of the directory. */
  ghost predicate ListedIn<T>(names: seq<string>, dir: map<string, T>) {
    Sorted(names) && forall x :: x in names <==> x in dir
  }

  /** Dealing with the first name of a listing leaves a listing of the rest. */
  lemma TailListed<T>(names: seq<string>, dir: map<string, T>)
    requires ListedIn(names, dir) && names != []
    ensures names[0] in dir && ListedIn(names[1..], dir - {names[0]})
  {
    assert names == [names[0]] + names[1..];
    LessTotal(names[0], names[0]);
  }
}
