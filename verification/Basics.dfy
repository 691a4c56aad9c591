/** Vocabulary shared by every component: optional values, samples and sequence helpers. */
module Basics {

  datatype Option<+T> = None | Some(value: T)

  /** One message read from a topic: its header (frame id and integer wall-clock nanoseconds)
      and what the source extracts from it. */
  datatype Sample = Sample(fid: nat, ts: int, payload: int)

  /** A published blackboard cell: a frame id and what it says. */
  datatype Cell<+T> = Cell(fid: nat, content: T)

  function Abs(x: int): nat {
    if x < 0 then -x else x
  }

  function Last<T>(s: seq<T>): T
    requires s != []
  {
    s[|s| - 1]
  }

  function Init<T>(s: seq<T>): seq<T>
    requires s != []
  {
    s[..|s| - 1]
  }

  /** What a queue of depth n with drop-oldest overflow holds of everything pushed into it. */
  function Tail<T>(s: seq<T>, n: nat): seq<T> {
    if |s| <= n then s else s[|s| - n..]
  }

  lemma SnocParts<T>(s: seq<T>, x: T)
    ensures Init(s + [x]) == s && Last(s + [x]) == x
  {
  }

  lemma Unsnoc<T>(s: seq<T>)
    requires s != []
    ensures s == Init(s) + [Last(s)]
  {
  }

  lemma AppendSnoc<T>(a: seq<T>, b: seq<T>)
    requires b != []
    ensures a + b == (a + Init(b)) + [Last(b)]
    ensures Init(a + b) == a + Init(b) && Last(a + b) == Last(b)
  {
  }

  lemma Assoc<T>(a: seq<T>, b: seq<T>, c: seq<T>)
    ensures (a + b) + c == a + (b + c)
  {
  }

  lemma Push<T>(s: seq<T>, x: T)
    ensures multiset(s + [x]) == multiset(s) + multiset{x}
  {
  }

  lemma Joined<T>(a: seq<T>, b: seq<T>)
    ensures multiset(a + b) == multiset(a) + multiset(b)
  {
  }

  lemma AddEither<T>(whole: multiset<T>, a: multiset<T>, b: multiset<T>, x: multiset<T>)
    requires whole == a + b
    ensures whole + x == (a + x) + b && whole + x == a + (b + x)
  {
  }
}
