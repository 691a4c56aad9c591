/** The boot-time type check: which typed topics a service declares, and when its binary's layouts are accepted. */
module TypeCheck {
  import opened Basics
  import opened Layouts

  /** A parsed YAML value; a mapping's entries have distinct keys. */
  datatype Yaml = Text(s: string) | Mapping(entries: seq<Entry>) | Scalar
  datatype Entry = Entry(key: string, value: Yaml)

  const DIRECTIONS: seq<string> := ["writes", "reads", "publishes", "subscribes"]

  function Get(entries: seq<Entry>, key: string): Option<Yaml> {
    if entries == [] then None
    else if entries[0].key == key then Some(entries[0].value)
    else Get(entries[1..], key)
  }

  /** The type a topic's entry declares: written out, or under `type`. */
  function Declared(spec: Yaml): Option<Yaml> {
    match spec
    case Text(_) => Some(spec)
    case Mapping(entries) => Get(entries, "type")
    case Scalar => None
  }

  function AddBlock(found: map<string, Yaml>, block: seq<Entry>): map<string, Yaml> {
    if block == [] then found
    else
      var before := AddBlock(found, Init(block));
      match Declared(Last(block).value)
      case None => before
      case Some(t) => before[Last(block).key := t]
  }

  function AddDirections(found: map<string, Yaml>, owner: seq<Entry>, directions: seq<string>): map<string, Yaml> {
    if directions == [] then found
    else
      var before := AddDirections(found, owner, Init(directions));
      match Get(owner, Last(directions))
      case Some(Mapping(block)) => AddBlock(before, block)
      case _ => before
  }

  function AddFamilies(families: seq<Entry>): map<string, Yaml> {
    if families == [] then map[]
    else
      var before := AddFamilies(Init(families));
      match Last(families).value
      case Mapping(owner) => AddDirections(before, owner, DIRECTIONS)
      case _ => before
  }

  /** Flat if some top-level key is a direction, grouped otherwise; never both. */
  predicate Flat(block: seq<Entry>) {
    exists i :: 0 <= i < |block| && block[i].key in DIRECTIONS
  }

  function Topics(block: seq<Entry>): map<string, Yaml> {
    if Flat(block) then AddDirections(map[], block, DIRECTIONS) else AddFamilies(block)
  }

  /** Fill the table from the four directions of one owner. */
  method Collect(found: map<string, Yaml>, owner: seq<Entry>) returns (r: map<string, Yaml>)
    ensures r == AddDirections(found, owner, DIRECTIONS)
  {
    r := found;
    for i := 0 to |DIRECTIONS|
      invariant r == AddDirections(found, owner, DIRECTIONS[..i])
    {
      assert Init(DIRECTIONS[..i + 1]) == DIRECTIONS[..i];
      ghost var before := r;
      match Get(owner, DIRECTIONS[i])
      case Some(Mapping(block)) =>
        for j := 0 to |block|
          invariant r == AddBlock(before, block[..j])
        {
          assert Init(block[..j + 1]) == block[..j];
          var t := Declared(block[j].value);
          if t.Some? {
            r := r[block[j].key := t.value];
          }
        }
        assert block[..|block|] == block;
      case _ =>
    }
    assert DIRECTIONS[..|DIRECTIONS|] == DIRECTIONS;
  }

  method TypedTopics(block: seq<Entry>) returns (found: map<string, Yaml>)
    ensures found == Topics(block)
  {
    if Flat(block) {
      found := Collect(map[], block);
    } else {
      found := map[];
      for i := 0 to |block|
        invariant found == AddFamilies(block[..i])
      {
        assert Init(block[..i + 1]) == block[..i];
        match block[i].value
        case Mapping(owner) => found := Collect(found, owner);
        case _ =>
      }
      assert block[..|block|] == block;
    }
  }

  // ----- What is found, said without the loops ------------------------------------------------

  ghost predicate BlockDeclares(block: seq<Entry>, topic: string, t: Yaml) {
    exists i :: 0 <= i < |block| && block[i].key == topic && Declared(block[i].value) == Some(t)
  }

  /** One of these directions of `owner` declares the topic with this type. */
  ghost predicate Declares(owner: seq<Entry>, directions: seq<string>, topic: string, t: Yaml) {
    exists d :: d in directions && DirectionDeclares(owner, d, topic, t)
  }

  ghost predicate DirectionDeclares(owner: seq<Entry>, d: string, topic: string, t: Yaml) {
    var b := Get(owner, d);
    b.Some? && b.value.Mapping? && BlockDeclares(b.value.entries, topic, t)
  }

  ghost predicate FamilyDeclares(families: seq<Entry>, topic: string, t: Yaml) {
    exists i :: 0 <= i < |families| && families[i].value.Mapping?
                && Declares(families[i].value.entries, DIRECTIONS, topic, t)
  }

  lemma {:induction false} BlockFound(found: map<string, Yaml>, block: seq<Entry>, topic: string)
    ensures var r := AddBlock(found, block);
            && (topic in r ==> BlockDeclares(block, topic, r[topic]) || (topic in found && r[topic] == found[topic]))
            && (topic in found || (exists t :: BlockDeclares(block, topic, t)) ==> topic in r)
  {
    if block != [] {
      var front := Init(block);
      BlockFound(found, front, topic);
      forall t
        ensures BlockDeclares(block, topic, t) <==>
                BlockDeclares(front, topic, t) || (Last(block).key == topic && Declared(Last(block).value) == Some(t))
      {
        BlockSnoc(block, topic, t);
      }
    }
  }

  lemma BlockSnoc(block: seq<Entry>, topic: string, t: Yaml)
    requires block != []
    ensures BlockDeclares(block, topic, t) <==>
            BlockDeclares(Init(block), topic, t) || (Last(block).key == topic && Declared(Last(block).value) == Some(t))
  {
    if BlockDeclares(Init(block), topic, t) {
      var i :| 0 <= i < |Init(block)| && Init(block)[i].key == topic && Declared(Init(block)[i].value) == Some(t);
      assert block[i] == Init(block)[i];
    }
  }

  lemma {:induction false} DirectionsFound(found: map<string, Yaml>, owner: seq<Entry>, directions: seq<string>,
                                           topic: string)
    ensures var r := AddDirections(found, owner, directions);
            && (topic in r ==>
                  Declares(owner, directions, topic, r[topic]) || (topic in found && r[topic] == found[topic]))
            && (topic in found || (exists t :: Declares(owner, directions, topic, t)) ==> topic in r)
  {
    if directions != [] {
      var front, d := Init(directions), Last(directions);
      DirectionsFound(found, owner, front, topic);
      var before := AddDirections(found, owner, front);
      var b := Get(owner, d);
      if b.Some? && b.value.Mapping? {
        BlockFound(before, b.value.entries, topic);
      }
      forall t
        ensures Declares(owner, directions, topic, t) <==>
                Declares(owner, front, topic, t) || DirectionDeclares(owner, d, topic, t)
      {
        assert forall x :: x in directions <==> x in front || x == d;
      }
    }
  }

  lemma {:induction false} FamiliesFound(families: seq<Entry>, topic: string)
    ensures var r := AddFamilies(families);
            && (topic in r ==> FamilyDeclares(families, topic, r[topic]))
            && ((exists t :: FamilyDeclares(families, topic, t)) ==> topic in r)
  {
    if families != [] {
      var front, last := Init(families), Last(families);
      FamiliesFound(front, topic);
      if last.value.Mapping? {
        DirectionsFound(AddFamilies(front), last.value.entries, DIRECTIONS, topic);
      }
      forall t
        ensures FamilyDeclares(families, topic, t) <==>
                FamilyDeclares(front, topic, t)
                || (last.value.Mapping? && Declares(last.value.entries, DIRECTIONS, topic, t))
      {
        FamilySnoc(families, topic, t);
      }
      var r := AddFamilies(families);
      if topic in r {
        FamilySnoc(families, topic, r[topic]);
      }
    } else {
      assert forall t :: !FamilyDeclares(families, topic, t);
    }
  }

  lemma FamilySnoc(families: seq<Entry>, topic: string, t: Yaml)
    requires families != []
    ensures FamilyDeclares(families, topic, t) <==>
            FamilyDeclares(Init(families), topic, t)
            || (Last(families).value.Mapping? && Declares(Last(families).value.entries, DIRECTIONS, topic, t))
  {
    if FamilyDeclares(Init(families), topic, t) {
      var i :| 0 <= i < |Init(families)| && Init(families)[i].value.Mapping?
        && Declares(Init(families)[i].value.entries, DIRECTIONS, topic, t);
      assert families[i] == Init(families)[i];
    }
  }

  ghost predicate BlockTopic(block: seq<Entry>, topic: string, t: Yaml) {
    if Flat(block) then Declares(block, DIRECTIONS, topic, t) else FamilyDeclares(block, topic, t)
  }

  // ----- Which declaration wins ---------------------------------------------------------------

  datatype Declaration = Declaration(topic: string, spec: Yaml)

  /** The typed entries, in the order they are read: direction by direction, family by family. */
  function BlockList(block: seq<Entry>): seq<Declaration> {
    if block == [] then []
    else
      BlockList(Init(block)) +
      match Declared(Last(block).value)
      case None => []
      case Some(t) => [Declaration(Last(block).key, t)]
  }

  function DirectionsList(owner: seq<Entry>, directions: seq<string>): seq<Declaration> {
    if directions == [] then []
    else
      DirectionsList(owner, Init(directions)) +
      match Get(owner, Last(directions))
      case Some(Mapping(block)) => BlockList(block)
      case _ => []
  }

  function FamiliesList(families: seq<Entry>): seq<Declaration> {
    if families == [] then []
    else
      FamiliesList(Init(families)) +
      match Last(families).value
      case Mapping(owner) => DirectionsList(owner, DIRECTIONS)
      case _ => []
  }

  function Declarations(block: seq<Entry>): seq<Declaration> {
    if Flat(block) then DirectionsList(block, DIRECTIONS) else FamiliesList(block)
  }

  function Overlay(found: map<string, Yaml>, list: seq<Declaration>): map<string, Yaml> {
    if list == [] then found else Overlay(found, Init(list))[Last(list).topic := Last(list).spec]
  }

  lemma {:induction false} OverlayConcat(found: map<string, Yaml>, a: seq<Declaration>, b: seq<Declaration>)
    ensures Overlay(found, a + b) == Overlay(Overlay(found, a), b)
  {
    if b == [] {
      assert a + b == a;
    } else {
      OverlayConcat(found, a, Init(b));
      AppendSnoc(a, b);
    }
  }

  lemma {:induction false} BlockOverlay(found: map<string, Yaml>, block: seq<Entry>)
    ensures AddBlock(found, block) == Overlay(found, BlockList(block))
  {
    if block != [] {
      BlockOverlay(found, Init(block));
      assert BlockList(Init(block)) + [] == BlockList(Init(block));
      if Declared(Last(block).value).Some? {
        SnocParts(BlockList(Init(block)), Declaration(Last(block).key, Declared(Last(block).value).value));
      }
    }
  }

  lemma {:induction false} DirectionsOverlay(found: map<string, Yaml>, owner: seq<Entry>, directions: seq<string>)
    ensures AddDirections(found, owner, directions) == Overlay(found, DirectionsList(owner, directions))
  {
    if directions != [] {
      var front := DirectionsList(owner, Init(directions));
      DirectionsOverlay(found, owner, Init(directions));
      assert front + [] == front;
      var b := Get(owner, Last(directions));
      if b.Some? && b.value.Mapping? {
        BlockOverlay(Overlay(found, front), b.value.entries);
        OverlayConcat(found, front, BlockList(b.value.entries));
      }
    }
  }

  lemma {:induction false} FamiliesOverlay(families: seq<Entry>)
    ensures AddFamilies(families) == Overlay(map[], FamiliesList(families))
  {
    if families != [] {
      var front := FamiliesList(Init(families));
      FamiliesOverlay(Init(families));
      assert front + [] == front;
      if Last(families).value.Mapping? {
        var owner := Last(families).value.entries;
        DirectionsOverlay(Overlay(map[], front), owner, DIRECTIONS);
        OverlayConcat(map[], front, DirectionsList(owner, DIRECTIONS));
      }
    }
  }

  /** The position of the last declaration of a topic, or the length if there is none. */
  function LastOf(list: seq<Declaration>, topic: string): (i: nat)
    ensures i <= |list| && forall j :: i < j < |list| ==> list[j].topic != topic
    ensures if i < |list| then list[i].topic == topic else forall j :: 0 <= j < |list| ==> list[j].topic != topic
  {
    if list == [] then 0
    else if Last(list).topic == topic then |list| - 1
    else
      var i := LastOf(Init(list), topic);
      if i == |list| - 1 then |list| else i
  }

  lemma {:induction false} OverlayIs(list: seq<Declaration>, topic: string)
    ensures var r := Overlay(map[], list); var i := LastOf(list, topic);
            && (topic in r <==> i < |list|)
            && (topic in r ==> r[topic] == list[i].spec)
  {
    if list != [] {
      OverlayIs(Init(list), topic);
    }
  }

  /** A topic is found exactly if some typed entry of a direction declares it: a topic named like a direction is no
      direction, and nothing inside an entry becomes a topic. Of several declarations, in reading order, the
      last gives the type. */
  lemma TopicsExact(block: seq<Entry>, topic: string)
    ensures topic in Topics(block) <==> exists t :: TopicAt(block, topic, t)
    ensures topic in Topics(block) ==> TopicAt(block, topic, Topics(block)[topic])
    ensures var list := Declarations(block); var i := LastOf(list, topic);
            && (topic in Topics(block) <==> i < |list|)
            && (topic in Topics(block) ==> Topics(block)[topic] == list[i].spec)
  {
    if Flat(block) {
      DirectionsFound(map[], block, DIRECTIONS, topic);
      DirectionsOverlay(map[], block, DIRECTIONS);
      assert forall t :: BlockTopic(block, topic, t) ==> Declares(block, DIRECTIONS, topic, t);
    } else {
      FamiliesFound(block, topic);
      FamiliesOverlay(block);
      assert forall t :: BlockTopic(block, topic, t) ==> FamilyDeclares(block, topic, t);
    }
    OverlayIs(Declarations(block), topic);
    if topic in Topics(block) {
      assert BlockTopic(block, topic, Topics(block)[topic]);
    }
    forall t
      ensures BlockTopic(block, topic, t) <==> TopicAt(block, topic, t)
    {
      TopicSaid(block, topic, t);
    }
  }

  // ----- The same, said of the entries themselves ---------------------------------------------

  ghost predicate IsDirection(key: string) {
    key == "writes" || key == "reads" || key == "publishes" || key == "subscribes"
  }

  /** Entry j is the first with this key. */
  ghost predicate FirstEntry(entries: seq<Entry>, key: string, j: int) {
    0 <= j < |entries| && entries[j].key == key && forall i :: 0 <= i < j ==> entries[i].key != key
  }

  /** An entry's value declares a type: it is the type's name, or a mapping with that under "type". */
  ghost predicate DeclaresType(spec: Yaml, t: Yaml) {
    || (spec.Text? && t == spec)
    || (spec.Mapping? && exists j :: FirstEntry(spec.entries, "type", j) && t == spec.entries[j].value)
  }

  ghost predicate EntryDeclares(entries: seq<Entry>, i: int, topic: string, t: Yaml) {
    0 <= i < |entries| && entries[i].key == topic && DeclaresType(entries[i].value, t)
  }

  /** Some entry of one of the owner's four directions declares the topic with this type. */
  ghost predicate DeclaredUnder(owner: seq<Entry>, topic: string, t: Yaml) {
    exists j :: DirectionAt(owner, j) && exists i :: EntryDeclares(owner[j].value.entries, i, topic, t)
  }

  ghost predicate DirectionAt(owner: seq<Entry>, j: int) {
    && 0 <= j < |owner| && IsDirection(owner[j].key) && FirstEntry(owner, owner[j].key, j)
    && owner[j].value.Mapping?
  }

  ghost predicate FamilyAt(block: seq<Entry>, f: int) {
    0 <= f < |block| && block[f].value.Mapping?
  }

  /** If some top-level key is a direction, the block's directions declare the topic; otherwise those of a family do. */
  ghost predicate TopicAt(block: seq<Entry>, topic: string, t: Yaml) {
    if exists i :: 0 <= i < |block| && IsDirection(block[i].key) then DeclaredUnder(block, topic, t)
    else exists f :: FamilyAt(block, f) && DeclaredUnder(block[f].value.entries, topic, t)
  }

  lemma {:induction false} GetIs(entries: seq<Entry>, key: string)
    ensures Get(entries, key).None? ==> forall j :: 0 <= j < |entries| ==> entries[j].key != key
    ensures Get(entries, key).Some? ==>
              exists j :: FirstEntry(entries, key, j) && Get(entries, key).value == entries[j].value
  {
    if entries != [] {
      var rest := entries[1..];
      GetIs(rest, key);
      if entries[0].key == key {
        assert FirstEntry(entries, key, 0);
      } else {
        assert forall j :: 1 <= j < |entries| ==> entries[j] == rest[j - 1];
        if Get(rest, key).Some? {
          var j :| FirstEntry(rest, key, j) && Get(rest, key).value == rest[j].value;
          assert FirstEntry(entries, key, j + 1);
        }
      }
    }
  }

  lemma DeclaredIs(spec: Yaml, t: Yaml)
    ensures Declared(spec) == Some(t) <==> DeclaresType(spec, t)
  {
    if spec.Mapping? {
      GetIs(spec.entries, "type");
    }
  }

  lemma BlockSaid(block: seq<Entry>, topic: string, t: Yaml)
    ensures BlockDeclares(block, topic, t) <==> exists i :: EntryDeclares(block, i, topic, t)
  {
    hide Declared, DeclaresType;
    forall i | 0 <= i < |block|
      ensures Declared(block[i].value) == Some(t) <==> DeclaresType(block[i].value, t)
    {
      DeclaredIs(block[i].value, t);
    }
    if BlockDeclares(block, topic, t) {
      var i :| 0 <= i < |block| && block[i].key == topic && Declared(block[i].value) == Some(t);
      assert EntryDeclares(block, i, topic, t);
    }
  }

  lemma DirectionSaid(owner: seq<Entry>, topic: string, t: Yaml)
    ensures Declares(owner, DIRECTIONS, topic, t) <==> DeclaredUnder(owner, topic, t)
  {
    hide Get, BlockDeclares, EntryDeclares;
    forall d
      ensures d in DIRECTIONS <==> IsDirection(d)
    {
    }
    forall d | IsDirection(d)
      ensures DirectionDeclares(owner, d, topic, t) <==>
              exists j :: DirectionAt(owner, j) && owner[j].key == d
                          && exists i :: EntryDeclares(owner[j].value.entries, i, topic, t)
    {
      GetIs(owner, d);
      if Get(owner, d).Some? {
        var j :| FirstEntry(owner, d, j) && Get(owner, d).value == owner[j].value;
        if owner[j].value.Mapping? {
          BlockSaid(owner[j].value.entries, topic, t);
          assert DirectionAt(owner, j);
        }
      }
    }
    if Declares(owner, DIRECTIONS, topic, t) {
      var d :| d in DIRECTIONS && DirectionDeclares(owner, d, topic, t);
      assert IsDirection(d);
    }
    if DeclaredUnder(owner, topic, t) {
      var j :| DirectionAt(owner, j) && exists i :: EntryDeclares(owner[j].value.entries, i, topic, t);
      assert DirectionDeclares(owner, owner[j].key, topic, t) && owner[j].key in DIRECTIONS;
    }
  }

  lemma TopicSaid(block: seq<Entry>, topic: string, t: Yaml)
    ensures BlockTopic(block, topic, t) <==> TopicAt(block, topic, t)
  {
    hide Declares, DeclaredUnder;
    DirectionSaid(block, topic, t);
    assert Flat(block) <==> exists i :: 0 <= i < |block| && IsDirection(block[i].key);
    forall f | FamilyAt(block, f)
      ensures Declares(block[f].value.entries, DIRECTIONS, topic, t) <==>
              DeclaredUnder(block[f].value.entries, topic, t)
    {
      DirectionSaid(block[f].value.entries, topic, t);
    }
    assert FamilyDeclares(block, topic, t) <==>
           exists f :: FamilyAt(block, f) && Declares(block[f].value.entries, DIRECTIONS, topic, t);
  }

  // ----- Types and reported layouts -----------------------------------------------------------

  /** A registered struct: its class name, the crate-qualified one, and its layout in memory. */
  datatype Struct = Struct(name: string, qualified: string, layout: Layout)

  function ByClass(registry: seq<Struct>, name: string): (r: Option<Struct>)
    ensures r.None? ==> forall i :: 0 <= i < |registry| ==> registry[i].name != name
    ensures r.Some? ==> exists i :: FirstClass(registry, name, i) && r.value == registry[i]
  {
    assert registry != [] && registry[0].name == name ==> FirstClass(registry, name, 0);
    assert registry != [] && registry[0].name != name ==>
             forall i :: FirstClass(registry[1..], name, i) ==> FirstClass(registry, name, i + 1);
    if registry == [] then None
    else if registry[0].name == name then Some(registry[0])
    else ByClass(registry[1..], name)
  }

  function ByQualified(registry: seq<Struct>, name: string): (r: Option<Struct>)
    ensures r.None? ==> forall i :: 0 <= i < |registry| ==> registry[i].qualified != name
    ensures r.Some? ==> exists i :: FirstQualified(registry, name, i) && r.value == registry[i]
  {
    assert registry != [] && registry[0].qualified == name ==> FirstQualified(registry, name, 0);
    assert registry != [] && registry[0].qualified != name ==>
             forall i :: FirstQualified(registry[1..], name, i) ==> FirstQualified(registry, name, i + 1);
    if registry == [] then None
    else if registry[0].qualified == name then Some(registry[0])
    else ByQualified(registry[1..], name)
  }

  ghost predicate FirstClass(registry: seq<Struct>, name: string, i: int) {
    0 <= i < |registry| && registry[i].name == name && forall j :: 0 <= j < i ==> registry[j].name != name
  }

  ghost predicate FirstQualified(registry: seq<Struct>, name: string, i: int) {
    0 <= i < |registry| && registry[i].qualified == name && forall j :: 0 <= j < i ==> registry[j].qualified != name
  }

  /** A type is text, and the class of that name; or, if no class has it, the first struct with that qualified name. */
  ghost predicate ResolvesTo(registry: seq<Struct>, t: Yaml, st: Struct) {
    && t.Text?
    && if exists i :: 0 <= i < |registry| && registry[i].name == t.s
       then exists i :: FirstClass(registry, t.s, i) && st == registry[i]
       else exists i :: FirstQualified(registry, t.s, i) && st == registry[i]
  }

  lemma ResolveIs(registry: seq<Struct>, t: Yaml, st: Struct)
    ensures Resolve(registry, t) == Some(st) <==> ResolvesTo(registry, t, st)
  {
  }

  /** This layout is reported for the struct: under the declared name, or else its class name, or else its qualified
      name. */
  ghost predicate ReportedAs(reported: map<string, Layout>, declared: string, st: Struct, layout: Layout) {
    || (declared in reported && layout == reported[declared])
    || (declared !in reported && st.name in reported && layout == reported[st.name])
    || (declared !in reported && st.name !in reported && st.qualified in reported && layout == reported[st.qualified])
  }

  /** By class name first, then by qualified name; what is not text is no type. */
  function Resolve(registry: seq<Struct>, t: Yaml): Option<Struct> {
    match t
    case Text(name) =>
      (match ByClass(registry, name)
       case Some(st) => Some(st)
       case None => ByQualified(registry, name))
    case _ => None
  }

  /** The layout reported under the first name the struct goes by that was reported at all. */
  function Reported(reported: map<string, Layout>, declared: string, st: Struct): Option<Layout> {
    if declared in reported then Some(reported[declared])
    else if st.name in reported then Some(reported[st.name])
    else if st.qualified in reported then Some(reported[st.qualified])
    else None
  }

  /** A service: its ipc block if it has one, whether its command is a native binary, and what that binary
      prints for the type check (None if running it failed). */
  datatype Service = Service(ipc: Option<seq<Entry>>, native: bool, output: Option<string>)

  // ----- The check ----------------------------------------------------------------------------

  predicate Resolves(registry: seq<Struct>, t: Yaml) {
    Resolve(registry, t).Some?
  }

  predicate LayoutAgrees(registry: seq<Struct>, reported: map<string, Layout>, t: Yaml) {
    t.Text? && Resolves(registry, t)
    && Reported(reported, t.s, Resolve(registry, t).value) == Some(Resolve(registry, t).value.layout)
  }

  /** The type resolves to a struct whose layout is the reported one. */
  ghost predicate Agrees(registry: seq<Struct>, reported: map<string, Layout>, t: Yaml) {
    t.Text? && exists st :: ResolvesTo(registry, t, st) && ReportedAs(reported, t.s, st, st.layout)
  }

  lemma AgreesIs(registry: seq<Struct>, reported: map<string, Layout>, t: Yaml)
    ensures Resolves(registry, t) <==> exists st :: ResolvesTo(registry, t, st)
    ensures LayoutAgrees(registry, reported, t) <==> Agrees(registry, reported, t)
  {
    hide Resolve, ResolvesTo;
    forall st
      ensures Resolve(registry, t) == Some(st) <==> ResolvesTo(registry, t, st)
    {
      ResolveIs(registry, t, st);
    }
  }

  /** What a service has to satisfy. */
  ghost predicate Accepted(registry: seq<Struct>, s: Service) {
    s.ipc.Some? ==>
      var declared := Topics(s.ipc.value);
      && (forall topic :: topic in declared ==> exists st :: ResolvesTo(registry, declared[topic], st))
      && (declared != map[] && s.native ==>
            s.output.Some? && Parse(s.output.value).Some?
            && forall topic :: topic in declared ==>
                 Agrees(registry, Parse(s.output.value).value, declared[topic]))
  }

  method AllResolve(registry: seq<Struct>, declared: map<string, Yaml>) returns (ok: bool)
    ensures ok <==> forall topic :: topic in declared ==> Resolves(registry, declared[topic])
  {
    var left := declared.Keys;
    while left != {}
      invariant left <= declared.Keys
      invariant forall topic :: topic in declared && topic !in left ==> Resolves(registry, declared[topic])
    {
      var topic :| topic in left;
      if !Resolves(registry, declared[topic]) {
        return false;
      }
      left := left - {topic};
    }
    return true;
  }

  method AllAgree(registry: seq<Struct>, reported: map<string, Layout>, declared: map<string, Yaml>) returns (ok: bool)
    ensures ok <==> forall topic :: topic in declared ==> LayoutAgrees(registry, reported, declared[topic])
  {
    var left := declared.Keys;
    while left != {}
      invariant left <= declared.Keys
      invariant forall topic :: topic in declared && topic !in left ==>
                  LayoutAgrees(registry, reported, declared[topic])
    {
      var topic :| topic in left;
      if !LayoutAgrees(registry, reported, declared[topic]) {
        return false;
      }
      left := left - {topic};
    }
    return true;
  }

  method CheckService(registry: seq<Struct>, s: Service) returns (ok: bool)
    ensures ok <==> Accepted(registry, s)
  {
    if s.ipc.None? {
      return true;
    }
    var declared := TypedTopics(s.ipc.value);
    var resolved := AllResolve(registry, declared);
    forall topic | topic in declared
      ensures Resolves(registry, declared[topic]) <==> exists st :: ResolvesTo(registry, declared[topic], st)
    {
      AgreesIs(registry, map[], declared[topic]);
    }
    if !resolved {
      return false;
    }
    if declared == map[] || !s.native {
      return true;
    }
    if s.output.None? {
      return false;
    }
    var reported := ParseLayout(s.output.value);
    if reported.None? {
      return false;
    }
    ok := AllAgree(registry, reported.value, declared);
    forall topic | topic in declared
      ensures LayoutAgrees(registry, reported.value, declared[topic]) <==>
              Agrees(registry, reported.value, declared[topic])
    {
      AgreesIs(registry, reported.value, declared[topic]);
    }
  }

  /** The boot is allowed exactly if every service is accepted; the first that is not raises. */
  method TypeCheck(registry: seq<Struct>, services: seq<Service>) returns (ok: bool)
    ensures ok <==> forall i :: 0 <= i < |services| ==> Accepted(registry, services[i])
  {
    for i := 0 to |services|
      invariant forall j :: 0 <= j < i ==> Accepted(registry, services[j])
    {
      var accepted := CheckService(registry, services[i]);
      if !accepted {
        return false;
      }
    }
    return true;
  }

  /** End to end: a native binary that prints its layouts, with whatever else around them, is accepted exactly if
      every declared type resolves and is printed, under its first printed name, with the Python layout. */
  lemma PrintedAcceptedIff(registry: seq<Struct>, block: seq<Entry>, named: seq<Named>, lines: seq<string>)
    requires PlainNames(named) && OnlyRelated(lines) == Printed(named)
    requires forall i, j :: 0 <= i < |lines| && 0 <= j < |lines[i]| ==> !IsBreak(lines[i][j])
    ensures Accepted(registry, Service(Some(block), true, Some(Unlines(lines)))) <==>
            forall topic :: topic in Topics(block) ==> Agrees(registry, ByName(named), Topics(block)[topic])
  {
    RoundTrip(named, lines);
  }
}
