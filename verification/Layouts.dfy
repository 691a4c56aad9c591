/** Struct layouts as a native binary prints them, and the line parser that reads them back. */
module Layouts {
  import opened Basics
  import opened Names

  datatype Field = Field(name: string, offset: int, size: int)
  datatype Layout = Layout(size: int, fields: seq<Field>)
  datatype Named = Named(name: string, layout: Layout)

  // ----- Text ---------------------------------------------------------------------------------

  predicate IsBreak(c: char) {
    || c == '\n' || c == '\r' || c == '\U{000B}' || c == '\U{000C}'
    || '\U{001C}' <= c <= '\U{001E}' || c == '\U{0085}' || '\U{2028}' <= c <= '\U{2029}'
  }

  predicate IsSpace(c: char) {
    || IsBreak(c) || c == ' ' || c == '\t' || c == '\U{001F}' || c == '\U{00A0}' || c == '\U{1680}'
    || '\U{2000}' <= c <= '\U{200A}' || c == '\U{202F}' || c == '\U{205F}' || c == '\U{3000}'
  }

  /** The length of the leading part of s without line breaks. */
  function LineEnd(s: string): (k: nat)
    ensures k <= |s| && (forall i :: 0 <= i < k ==> !IsBreak(s[i])) && (k < |s| ==> IsBreak(s[k]))
  {
    if s == "" || IsBreak(s[0]) then 0 else 1 + LineEnd(s[1..])
  }

  /** Where the line break at k ends. */
  function BreakEnd(s: string, k: nat): (e: nat)
    requires k < |s|
    ensures e == k + if s[k] == '\r' && k + 1 < |s| && s[k + 1] == '\n' then 2 else 1
  {
    if s[k] == '\r' && k + 1 < |s| && s[k + 1] == '\n' then k + 2 else k + 1
  }

  /** Lines without their breaks; a carriage return with a line feed is one break, and a final break ends no line. */
  function Lines(s: string): seq<string>
    decreases |s|
  {
    if s == "" then []
    else
      var k := LineEnd(s);
      if k == |s| then [s]
      else [s[..k]] + Lines(s[BreakEnd(s, k)..])
  }

  function WordEnd(s: string): (k: nat)
    ensures k <= |s| && (forall i :: 0 <= i < k ==> !IsSpace(s[i])) && (k < |s| ==> IsSpace(s[k]))
  {
    if s == "" || IsSpace(s[0]) then 0 else 1 + WordEnd(s[1..])
  }

  /** The maximal runs of characters that are not white space. */
  function Words(s: string): seq<string>
    decreases |s|
  {
    if s == "" then []
    else if IsSpace(s[0]) then Words(s[1..])
    else [s[..WordEnd(s)]] + Words(s[WordEnd(s)..])
  }

  predicate IsDigit(c: char) {
    '0' <= c <= '9'
  }

  function DigitValue(c: char): (d: nat)
    requires IsDigit(c)
    ensures d < 10
  {
    assert '0' as int <= c as int <= '9' as int;
    c as int - '0' as int
  }

  /** Digits, with single underscores between them. */
  function Natural(s: string): (r: Option<nat>)
    ensures r.Some? ==> r.value >= 0
  {
    if s == "" || !IsDigit(Last(s)) then None
    else if |s| == 1 then Some(DigitValue(s[0]))
    else
      var front := if Last(Init(s)) == '_' then Init(Init(s)) else Init(s);
      match Natural(front)
      case None => None
      case Some(n) => Some(10 * n + DigitValue(Last(s)))
  }

  /** An integer literal: an optional sign, then digits. Anything else raises. */
  function Integer(s: string): Option<int> {
    var digits := if s != "" && (s[0] == '-' || s[0] == '+') then s[1..] else s;
    match Natural(digits)
    case None => None
    case Some(n) =>
      var m: int := n;
      Some(if s[0] == '-' then -m else m)
  }

  // ----- The parser ---------------------------------------------------------------------------

  predicate IsType(p: seq<string>) {
    |p| >= 4 && p[0] == "TYPE" && p[2] == "SIZE"
  }

  predicate IsField(p: seq<string>) {
    |p| >= 6 && p[0] == "FIELD" && p[2] == "OFFSET" && p[4] == "SIZE"
  }

  datatype State = State(layouts: map<string, Layout>, current: Option<string>)

  ghost predicate Good(st: State) {
    st.current.Some? ==> st.current.value in st.layouts
  }

  /** One line; None is a number that does not parse, which raises. */
  function Step(st: State, p: seq<string>): (r: Option<State>)
    requires Good(st)
    ensures r.Some? ==> Good(r.value)
  {
    if IsType(p) then
      match Integer(p[3])
      case None => None
      case Some(n) => Some(State(st.layouts[p[1] := Layout(n, [])], Some(p[1])))
    else if IsField(p) && st.current.Some? && st.current.value != "" then
      var l := st.layouts[st.current.value];
      match (Integer(p[3]), Integer(p[5]))
      case (Some(o), Some(n)) =>
        Some(st.(layouts := st.layouts[st.current.value := l.(fields := l.fields + [Field(p[1], o, n)])]))
      case _ => None
    else Some(st)
  }

  function ParseLines(lines: seq<string>): (r: Option<State>)
    ensures r.Some? ==> Good(r.value)
  {
    if lines == [] then Some(State(map[], None))
    else
      match ParseLines(Init(lines))
      case None => None
      case Some(st) => Step(st, Words(Last(lines)))
  }

  function Parse(text: string): Option<map<string, Layout>> {
    match ParseLines(Lines(text))
    case None => None
    case Some(st) => Some(st.layouts)
  }

  /** The parser itself: one pass over the lines, carrying the type being read. */
  method ParseLayout(text: string) returns (r: Option<map<string, Layout>>)
    ensures r == Parse(text)
  {
    var lines := Lines(text);
    var layouts: map<string, Layout> := map[];
    var current: Option<string> := None;
    for i := 0 to |lines|
      invariant ParseLines(lines[..i]) == Some(State(layouts, current))
    {
      assert Init(lines[..i + 1]) == lines[..i] && Last(lines[..i + 1]) == lines[i];
      var p := Words(lines[i]);
      if |p| >= 4 && p[0] == "TYPE" && p[2] == "SIZE" {
        var size := Integer(p[3]);
        if size.None? {
          FailureSticks(lines, i + 1);
          return None;
        }
        current := Some(p[1]);
        layouts := layouts[p[1] := Layout(size.value, [])];
      } else if |p| >= 6 && p[0] == "FIELD" && p[2] == "OFFSET" && p[4] == "SIZE"
                && current.Some? && current.value != "" {
        var offset, size := Integer(p[3]), Integer(p[5]);
        if offset.None? || size.None? {
          FailureSticks(lines, i + 1);
          return None;
        }
        var l := layouts[current.value];
        layouts := layouts[current.value := l.(fields := l.fields + [Field(p[1], offset.value, size.value)])];
      }
    }
    assert lines[..|lines|] == lines;
    r := Some(layouts);
  }

  lemma {:induction false} FailureSticks(lines: seq<string>, k: nat)
    requires k <= |lines| && ParseLines(lines[..k]).None?
    ensures ParseLines(lines).None?
    decreases |lines| - k
  {
    if k < |lines| {
      assert Init(lines[..k + 1]) == lines[..k];
      FailureSticks(lines, k + 1);
    } else {
      assert lines[..k] == lines;
    }
  }

  // ----- Printing -----------------------------------------------------------------------------

  function Print(n: int): string {
    if n < 0 then "-" + Decimal(-n) else Decimal(n)
  }

  /** Words with single spaces between them. */
  function Spaced(words: seq<string>): string {
    if words == [] then "" else if |words| == 1 then words[0] else words[0] + " " + Spaced(words[1..])
  }

  function TypeLine(name: string, size: int): string {
    Spaced(["TYPE", name, "SIZE", Print(size)])
  }

  function FieldLine(f: Field): string {
    Spaced(["FIELD", f.name, "OFFSET", Print(f.offset), "SIZE", Print(f.size)])
  }

  function FieldLines(fields: seq<Field>): seq<string> {
    if fields == [] then [] else FieldLines(Init(fields)) + [FieldLine(Last(fields))]
  }

  function Printed(named: seq<Named>): seq<string> {
    if named == [] then []
    else
      Printed(Init(named)) +
      [TypeLine(Last(named).name, Last(named).layout.size)] + FieldLines(Last(named).layout.fields)
  }

  /** Each line followed by a line feed. */
  function Unlines(lines: seq<string>): string {
    if lines == [] then "" else lines[0] + "\n" + Unlines(lines[1..])
  }

  ghost predicate PlainName(s: string) {
    s != "" && forall i :: 0 <= i < |s| ==> !IsSpace(s[i])
  }

  ghost predicate PlainNames(named: seq<Named>) {
    forall i :: 0 <= i < |named| ==>
      PlainName(named[i].name)
      && forall j :: 0 <= j < |named[i].layout.fields| ==> PlainName(named[i].layout.fields[j].name)
  }

  // ----- Text round trips ---------------------------------------------------------------------

  lemma LineEndIs(s: string, rest: string)
    requires forall i :: 0 <= i < |s| ==> !IsBreak(s[i])
    ensures LineEnd(s + "\n" + rest) == |s|
  {
    var t := s + "\n" + rest;
    assert t[|s|] == '\n' && forall i :: 0 <= i < |s| ==> t[i] == s[i];
  }

  lemma {:induction false} LinesOfUnlines(lines: seq<string>)
    requires forall i, j :: 0 <= i < |lines| && 0 <= j < |lines[i]| ==> !IsBreak(lines[i][j])
    ensures Lines(Unlines(lines)) == lines
  {
    if lines != [] {
      LinesOfUnlines(lines[1..]);
      var l, rest := lines[0], Unlines(lines[1..]);
      LineEndIs(l, rest);
      var t := l + "\n" + rest;
      assert t[..|l|] == l && t[|l| + 1..] == rest && t[|l|] == '\n';
    }
  }

  /** A plain word and a space in front of a line add that word in front. */
  lemma WordsSplit(w: string, rest: string)
    requires PlainName(w)
    ensures Words(w + " " + rest) == [w] + Words(rest)
  {
    var t := w + " " + rest;
    assert t[|w|] == ' ' && forall i :: 0 <= i < |w| ==> t[i] == w[i];
    assert WordEnd(t) == |w|;
    assert t[..|w|] == w && t[|w|..] == " " + rest;
    assert (" " + rest)[1..] == rest;
  }

  lemma WordsOne(w: string)
    requires PlainName(w)
    ensures Words(w) == [w]
  {
    assert WordEnd(w) == |w|;
    assert w[..|w|] == w && w[|w|..] == "";
  }

  lemma {:induction false} DecimalDigits(n: nat)
    ensures forall i :: 0 <= i < |Decimal(n)| ==> '0' <= Decimal(n)[i] <= '9'
  {
    if n >= 10 {
      DecimalDigits(n / 10);
    }
  }

  lemma {:induction false} NaturalOfDecimal(n: nat)
    ensures Natural(Decimal(n)) == Some(n)
  {
    DecimalDigits(n);
    if n >= 10 {
      NaturalOfDecimal(n / 10);
      DecimalDigits(n / 10);
      assert Init(Decimal(n)) == Decimal(n / 10);
    }
  }

  lemma IntegerOfPrint(n: int)
    ensures Integer(Print(n)) == Some(n) && PlainName(Print(n))
  {
    hide Decimal, Natural;
    var m := if n < 0 then -n else n;
    NaturalOfDecimal(m);
    DecimalDigits(m);
    if n < 0 {
      assert Print(n)[1..] == Decimal(m);
    }
  }

  lemma {:induction false} WordsOfSpaced(words: seq<string>)
    requires forall i :: 0 <= i < |words| ==> PlainName(words[i])
    ensures Words(Spaced(words)) == words
  {
    if |words| == 1 {
      WordsOne(words[0]);
    } else if words != [] {
      WordsOfSpaced(words[1..]);
      WordsSplit(words[0], Spaced(words[1..]));
    }
  }

  lemma WordsOfTypeLine(name: string, size: int)
    requires PlainName(name)
    ensures Words(TypeLine(name, size)) == ["TYPE", name, "SIZE", Print(size)]
  {
    IntegerOfPrint(size);
    WordsOfSpaced(["TYPE", name, "SIZE", Print(size)]);
  }

  lemma WordsOfFieldLine(f: Field)
    requires PlainName(f.name)
    ensures Words(FieldLine(f)) == ["FIELD", f.name, "OFFSET", Print(f.offset), "SIZE", Print(f.size)]
  {
    IntegerOfPrint(f.offset);
    IntegerOfPrint(f.size);
    WordsOfSpaced(["FIELD", f.name, "OFFSET", Print(f.offset), "SIZE", Print(f.size)]);
  }

  // ----- The round trip -----------------------------------------------------------------------

  /** The layouts by name; a name printed twice counts as last printed. */
  function ByName(named: seq<Named>): map<string, Layout> {
    if named == [] then map[] else ByName(Init(named))[Last(named).name := Last(named).layout]
  }

  predicate Related(line: string) {
    IsType(Words(line)) || IsField(Words(line))
  }

  function OnlyRelated(lines: seq<string>): seq<string> {
    if lines == [] then [] else OnlyRelated(Init(lines)) + if Related(Last(lines)) then [Last(lines)] else []
  }

  /** Lines of any other form change nothing. */
  lemma {:induction false} UnrelatedIgnored(lines: seq<string>)
    ensures ParseLines(lines) == ParseLines(OnlyRelated(lines))
  {
    if lines != [] {
      UnrelatedIgnored(Init(lines));
      SnocParts(OnlyRelated(Init(lines)), Last(lines));
      assert OnlyRelated(Init(lines)) + [] == OnlyRelated(Init(lines));
    }
  }

  ghost predicate JustRead(lines: seq<string>, name: string, layout: Layout) {
    var r := ParseLines(lines);
    r.Some? && r.value.current == Some(name) && name in r.value.layouts && r.value.layouts[name] == layout
  }

  lemma ParseOneField(lines: seq<string>, name: string, l: Layout, f: Field)
    requires name != "" && PlainName(f.name) && JustRead(lines, name, l)
    ensures ParseLines(lines + [FieldLine(f)]) ==
            Some(State(ParseLines(lines).value.layouts[name := l.(fields := l.fields + [f])], Some(name)))
  {
    hide Words, FieldLine, Integer, Print;
    SnocParts(lines, FieldLine(f));
    WordsOfFieldLine(f);
    IntegerOfPrint(f.offset);
    IntegerOfPrint(f.size);
  }

  lemma {:induction false} ParseFields(lines: seq<string>, name: string, size: int, fields: seq<Field>)
    requires name != "" && forall j :: 0 <= j < |fields| ==> PlainName(fields[j].name)
    requires JustRead(lines, name, Layout(size, []))
    ensures ParseLines(lines + FieldLines(fields)) ==
            Some(State(ParseLines(lines).value.layouts[name := Layout(size, fields)], Some(name)))
    decreases |fields|
  {
    hide FieldLine;
    var l := ParseLines(lines).value.layouts;
    if fields == [] {
      assert lines + FieldLines(fields) == lines;
      assert l[name := Layout(size, [])] == l;
    } else {
      var front, f := Init(fields), Last(fields);
      ParseFields(lines, name, size, front);
      ParseOneField(lines + FieldLines(front), name, Layout(size, front), f);
      Assoc(lines, FieldLines(front), [FieldLine(f)]);
      assert front + [f] == fields;
      assert l[name := Layout(size, front)][name := Layout(size, fields)] == l[name := Layout(size, fields)];
    }
  }

  lemma ParseTypeLine(lines: seq<string>, name: string, size: int)
    requires PlainName(name) && ParseLines(lines).Some?
    ensures ParseLines(lines + [TypeLine(name, size)]) ==
            Some(State(ParseLines(lines).value.layouts[name := Layout(size, [])], Some(name)))
  {
    hide Words, TypeLine, Integer, Print;
    SnocParts(lines, TypeLine(name, size));
    WordsOfTypeLine(name, size);
    IntegerOfPrint(size);
  }

  lemma {:induction false} ParsePrinted(named: seq<Named>)
    requires PlainNames(named)
    ensures ParseLines(Printed(named)) ==
            Some(State(ByName(named), if named == [] then None else Some(Last(named).name)))
  {
    hide TypeLine, FieldLine, Step;
    if named != [] {
      var front, x := Init(named), Last(named);
      assert forall i :: 0 <= i < |front| ==> front[i] == named[i];
      ParsePrinted(front);
      var head := Printed(front) + [TypeLine(x.name, x.layout.size)];
      ParseTypeLine(Printed(front), x.name, x.layout.size);
      ParseFields(head, x.name, x.layout.size, x.layout.fields);
      assert ByName(front)[x.name := Layout(x.layout.size, [])][x.name := x.layout] ==
             ByName(front)[x.name := x.layout];
    }
  }

  /** Parsing undoes printing, whatever unrelated lines stand between the printed ones. */
  lemma RoundTrip(named: seq<Named>, lines: seq<string>)
    requires PlainNames(named) && OnlyRelated(lines) == Printed(named)
    requires forall i, j :: 0 <= i < |lines| && 0 <= j < |lines[i]| ==> !IsBreak(lines[i][j])
    ensures Parse(Unlines(lines)) == Some(ByName(named))
  {
    LinesOfUnlines(lines);
    UnrelatedIgnored(lines);
    ParsePrinted(named);
  }

  /** With distinct names the parsed table is exactly the printed layouts. */
  lemma {:induction false} ByNameExact(named: seq<Named>)
    requires forall i, j :: 0 <= i < j < |named| ==> named[i].name != named[j].name
    ensures forall i :: 0 <= i < |named| ==>
              named[i].name in ByName(named) && ByName(named)[named[i].name] == named[i].layout
    ensures forall n :: n in ByName(named) ==> exists i :: 0 <= i < |named| && named[i].name == n
  {
    if named != [] {
      var front := Init(named);
      ByNameExact(front);
      forall i | 0 <= i < |named|
        ensures named[i].name in ByName(named) && ByName(named)[named[i].name] == named[i].layout
      {
        if i < |front| {
          assert front[i] == named[i];
        }
      }
      forall n | n in ByName(named)
        ensures exists i :: 0 <= i < |named| && named[i].name == n
      {
        if n in ByName(front) {
          var i :| 0 <= i < |front| && front[i].name == n;
          assert named[i].name == n;
        } else {
          assert named[|front|].name == n;
        }
      }
    }
  }

  // ----- Reading, said of the characters ------------------------------------------------------

  /** The code points at which a text is split into lines. */
  ghost predicate BreakCode(c: char) {
    c as int in {10, 11, 12, 13, 28, 29, 30, 0x85, 0x2028, 0x2029}
  }

  /** The code points at which a line is split into words. */
  ghost predicate SpaceCode(c: char) {
    || BreakCode(c) || c as int in {9, 31, 32, 0xA0, 0x1680, 0x202F, 0x205F, 0x3000}
    || 0x2000 <= c as int <= 0x200A
  }

  lemma Codes(c: char)
    ensures IsBreak(c) <==> BreakCode(c)
    ensures IsSpace(c) <==> SpaceCode(c)
  {
  }

  ghost predicate NoSpace(s: string) {
    forall i :: 0 <= i < |s| ==> !SpaceCode(s[i])
  }

  ghost predicate NoBreak(s: string) {
    forall i :: 0 <= i < |s| ==> !BreakCode(s[i])
  }

  lemma {:induction false} WordEndOf(w: string, rest: string)
    requires NoSpace(w) && (rest != "" ==> SpaceCode(rest[0]))
    ensures WordEnd(w + rest) == |w|
  {
    var s := w + rest;
    assert forall i :: 0 <= i < |w| ==> s[i] == w[i];
    forall i | 0 <= i < |s|
      ensures IsSpace(s[i]) <==> SpaceCode(s[i])
    {
      Codes(s[i]);
    }
    if |w| < |s| {
      assert s[|w|] == rest[0];
    }
  }

  /** Splitting a line into words: nothing gives none, a run without white space gives itself, and any white space
      separates. This fixes it for every line. */
  lemma WordsOfRun(w: string)
    requires w != "" && NoSpace(w)
    ensures Words("") == [] && Words(w) == [w]
  {
    WordEndOf(w, "");
    assert w + "" == w && w[..|w|] == w && w[|w|..] == "";
    Codes(w[0]);
  }

  lemma {:induction false} WordsOfSplit(a: string, c: char, b: string)
    requires SpaceCode(c)
    ensures Words(a + [c] + b) == Words(a) + Words(b)
    decreases |a|
  {
    Codes(c);
    var s := a + [c] + b;
    if a == "" {
      assert s == [c] + b && s[1..] == b;
      assert [] + Words(b) == Words(b);
    } else {
      Codes(a[0]);
      assert s[0] == a[0];
      if IsSpace(a[0]) {
        assert s[1..] == a[1..] + [c] + b;
        WordsOfSplit(a[1..], c, b);
      } else {
        var k := WordEnd(a);
        assert a == a[..k] + a[k..];
        forall i | 0 <= i < k
          ensures !SpaceCode(a[..k][i])
        {
          Codes(a[i]);
        }
        if k < |a| {
          Codes(a[k]);
        }
        assert s == a[..k] + (a[k..] + [c] + b);
        WordEndOf(a[..k], a[k..] + [c] + b);
        assert s[..k] == a[..k] && s[k..] == a[k..] + [c] + b;
        WordsOfSplit(a[k..], c, b);
        assert [a[..k]] + (Words(a[k..]) + Words(b)) == ([a[..k]] + Words(a[k..])) + Words(b);
      }
    }
  }

  lemma LineEndOf(l: string, rest: string)
    requires NoBreak(l) && (rest != "" ==> BreakCode(rest[0]))
    ensures LineEnd(l + rest) == |l|
  {
    var s := l + rest;
    assert forall i :: 0 <= i < |l| ==> s[i] == l[i];
    forall i | 0 <= i < |s|
      ensures IsBreak(s[i]) <==> BreakCode(s[i])
    {
      Codes(s[i]);
    }
    if |l| < |s| {
      assert s[|l|] == rest[0];
    }
  }

  /** Splitting a text into lines: nothing gives none, a text without breaks gives itself, and a break, or a carriage
      return with a line feed, ends a line. This fixes it for every text. */
  lemma LinesOfRun(l: string)
    requires l != "" && NoBreak(l)
    ensures Lines("") == [] && Lines(l) == [l]
  {
    LineEndOf(l, "");
    assert l + "" == l;
  }

  lemma LinesOfSplit(l: string, brk: string, rest: string)
    requires NoBreak(l)
    requires brk == "\r\n" || (|brk| == 1 && BreakCode(brk[0]) && !(brk == "\r" && rest != "" && rest[0] == '\n'))
    ensures Lines(l + brk + rest) == [l] + Lines(rest)
  {
    var s, tail := l + (brk + rest), brk + rest;
    assert l + brk + rest == s by { Assoc(l, brk, rest); }
    assert tail[0] == brk[0];
    LineEndOf(l, tail);
    LinesUnfold(s);
    hide Lines, LineEnd, NoBreak, BreakCode;
    assert s[..|l|] == l && s[|l|] == tail[0];
    assert |l| + 1 < |s| ==> s[|l| + 1] == tail[1];
    assert |brk| == 1 && rest != "" ==> tail[1] == rest[0];
    assert s[|l| + |brk|..] == rest;
  }

  lemma LinesUnfold(s: string)
    requires s != ""
    ensures var k := LineEnd(s);
            Lines(s) == if k == |s| then [s] else [s[..k]] + Lines(s[BreakEnd(s, k)..])
  {
    hide LineEnd, BreakEnd;
  }

  /** Reading digits: one has its value, and each further one, with or without an underscore before it, adds a decimal
      place. Nothing else is a number. */
  lemma NaturalReads(a: string, d: char)
    requires IsDigit(d)
    ensures Natural([d]) == Some(d as int - '0' as int)
    ensures a != "" && Last(a) != '_' ==>
              Natural(a + [d]) ==
              if Natural(a).Some? then Some(10 * Natural(a).value + (d as int - '0' as int)) else None
    ensures a != "" ==>
              Natural(a + "_" + [d]) ==
              if Natural(a).Some? then Some(10 * Natural(a).value + (d as int - '0' as int)) else None
    ensures forall s: string :: s == "" || !('0' <= Last(s) <= '9') ==> Natural(s) == None
  {
    hide Init, Last;
    SnocParts(a, d);
    SnocParts(a + "_", d);
    SnocParts(a, '_');
    LastOfOne(d);
    assert a + ['_'] == a + "_";
  }

  lemma LastOfOne(d: char)
    ensures Last([d]) == d && [d][0] == d
  {
  }

  /** An integer is such a number, perhaps with a sign in front. */
  lemma IntegerReads(t: string)
    requires t != ""
    ensures t[0] == '-' ==> Integer(t) == if Natural(t[1..]).Some? then Some(-(Natural(t[1..]).value as int)) else None
    ensures t[0] == '+' ==> Integer(t) == if Natural(t[1..]).Some? then Some(Natural(t[1..]).value as int) else None
    ensures t[0] != '-' && t[0] != '+' ==>
              Integer(t) == if Natural(t).Some? then Some(Natural(t).value as int) else None
  {
    hide Natural;
  }

  /** What one more line does, by its words. Whatever follows the words that count is ignored. */
  lemma NextLine(lines: seq<string>, line: string)
    requires ParseLines(lines).Some?
    ensures var st := ParseLines(lines).value; var p := Words(line);
            ParseLines(lines + [line]) ==
            if |p| >= 4 && p[0] == "TYPE" && p[2] == "SIZE" then
              match Integer(p[3])
              case None => None
              case Some(n) => Some(State(st.layouts[p[1] := Layout(n, [])], Some(p[1])))
            else if |p| >= 6 && p[0] == "FIELD" && p[2] == "OFFSET" && p[4] == "SIZE"
                    && st.current.Some? && st.current.value != "" then
              var l := st.layouts[st.current.value];
              if Integer(p[3]).None? || Integer(p[5]).None? then None
              else
                var f := Field(p[1], Integer(p[3]).value, Integer(p[5]).value);
                Some(State(st.layouts[st.current.value := Layout(l.size, l.fields + [f])], st.current))
            else Some(st)
  {
    hide Integer, Words;
    SnocParts(lines, line);
  }
}
