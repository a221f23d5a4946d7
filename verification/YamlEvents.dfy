/**
 The events a YAML parser emits, the grammar they obey, and the trees they spell:

   stream ::= STREAM-START (DOCUMENT-START node DOCUMENT-END)* STREAM-END

 where a sequence holds any number of nodes and a mapping an even number.
 */
module YamlEvents {
  import opened Bytes

  datatype ScalarStyle = Plain | SingleQuoted | DoubleQuoted | Literal | Folded

  datatype TagDirective = TagDirective(handle: Name, prefix: Name)

  datatype Version = Version(major: nat, minor: nat)

  datatype Event =
    | StreamStart
    | StreamEnd
    | DocumentStart(version: Option<Version>, tags: seq<TagDirective>, implicit: bool)
    | DocumentEnd(implicit: bool)
    | AliasEvent(name: Name)
    | ScalarEvent(anchor: Option<Name>, tag: Option<Name>, value: Name, plain: bool, quoted: bool, style: ScalarStyle)
    | SequenceStart(anchor: Option<Name>, tag: Option<Name>, implicit: bool, flow: bool)
    | SequenceEnd
    | MappingStart(anchor: Option<Name>, tag: Option<Name>, implicit: bool, flow: bool)
    | MappingEnd

  // ---------------------------------------------------------------- the grammar, as a machine

  /** What may come next at one level: the root node, nothing more, an item, a key, a value. */
  datatype Frame = Root | RootDone | Item | Key | Value

  datatype Phase =
    | Fresh
    | Between
    | Inside(stack: seq<Frame>)
    | Finished

  function AfterNode(f: Frame): Frame {
    match f
    case Root => RootDone
    case RootDone => RootDone
    case Item => Item
    case Key => Value
    case Value => Key
  }

  /** The stack once a node at its top is complete. */
  function NodeDone(s: seq<Frame>): seq<Frame>
    requires s != []
  {
    s[..|s| - 1] + [AfterNode(s[|s| - 1])]
  }

  predicate TakesNode(s: seq<Frame>) {
    s != [] && s[|s| - 1] != RootDone
  }

  function Accept(g: Phase, e: Event): Option<Phase> {
    match g
    case Fresh => if e.StreamStart? then Some(Between) else None
    case Between =>
      if e.DocumentStart? then Some(Inside([Root]))
      else if e.StreamEnd? then Some(Finished) else None
    case Inside(s) =>
      if e.AliasEvent? || e.ScalarEvent? then (if TakesNode(s) then Some(Inside(NodeDone(s))) else None)
      else if e.SequenceStart? then (if TakesNode(s) then Some(Inside(NodeDone(s) + [Item])) else None)
      else if e.MappingStart? then (if TakesNode(s) then Some(Inside(NodeDone(s) + [Key])) else None)
      else if e.SequenceEnd? then (if s != [] && s[|s| - 1] == Item then Some(Inside(s[..|s| - 1])) else None)
      else if e.MappingEnd? then (if s != [] && s[|s| - 1] == Key then Some(Inside(s[..|s| - 1])) else None)
      else if e.DocumentEnd? then (if s == [RootDone] then Some(Between) else None)
      else None
    case Finished => None
  }

  function AcceptAll(g: Phase, events: seq<Event>): Option<Phase> {
    if events == [] then Some(g)
    else
      var h := AcceptAll(g, events[..|events| - 1]);
      if h.None? then None else Accept(h.value, events[|events| - 1])
  }

  lemma {:induction false} AcceptConcat(g: Phase, a: seq<Event>, b: seq<Event>)
    ensures AcceptAll(g, a + b) ==
      if AcceptAll(g, a).None? then None else AcceptAll(AcceptAll(g, a).value, b)
  {
    if b == [] {
      assert a + b == a;
    } else {
      assert (a + b)[..|a + b| - 1] == a + b[..|b| - 1];
      AcceptConcat(g, a, b[..|b| - 1]);
    }
  }

  // ---------------------------------------------------------------- the grammar, as trees

  /** A node: a scalar or an alias, or a collection. A mapping's items are its keys and values
      in turn. */
  datatype Tree =
    | Leaf(event: Event)
    | Collection(start: Event, items: seq<Tree>)

  datatype Document = Document(start: Event, root: Tree, end: Event)

  predicate ProperTree(t: Tree) {
    match t
    case Leaf(e) => e.AliasEvent? || e.ScalarEvent?
    case Collection(e, items) =>
      && (e.SequenceStart? || (e.MappingStart? && |items| % 2 == 0))
      && forall i :: 0 <= i < |items| ==> ProperTree(items[i])
  }

  predicate ProperDocument(d: Document) {
    d.start.DocumentStart? && d.end.DocumentEnd? && ProperTree(d.root)
  }

  /** The events of a node. */
  function Flatten(t: Tree): seq<Event> {
    match t
    case Leaf(e) => [e]
    case Collection(e, items) => [e] + FlattenItems(items) + [if e.SequenceStart? then SequenceEnd else MappingEnd]
  }

  function FlattenItems(items: seq<Tree>): seq<Event> {
    if items == [] then [] else FlattenItems(items[..|items| - 1]) + Flatten(items[|items| - 1])
  }

  function FlattenDocuments(docs: seq<Document>): seq<Event> {
    if docs == [] then []
    else
      var d := docs[|docs| - 1];
      FlattenDocuments(docs[..|docs| - 1]) + ([d.start] + Flatten(d.root) + [d.end])
  }

  /** The events of a whole stream. */
  function Stream(docs: seq<Document>): seq<Event> {
    [StreamStart] + FlattenDocuments(docs) + [StreamEnd]
  }

  lemma {:induction false} AcceptTree(s: seq<Frame>, t: Tree)
    requires TakesNode(s) && ProperTree(t)
    ensures AcceptAll(Inside(s), Flatten(t)) == Some(Inside(NodeDone(s)))
    decreases t
  {
    match t
    case Leaf(e) =>
      AcceptOne(Inside(s), e);
    case Collection(e, items) =>
      var f := if e.SequenceStart? then Item else Key;
      AcceptItems(NodeDone(s), f, items);
      hide AcceptAll;
      AcceptOne(Inside(s), e);
      AcceptConcat(Inside(s), [e], FlattenItems(items));
      EndAccepted(NodeDone(s), Later(f, |items|), if e.SequenceStart? then SequenceEnd else MappingEnd);
      AcceptConcat(Inside(s), [e] + FlattenItems(items), [if e.SequenceStart? then SequenceEnd else MappingEnd]);
  }

  lemma EndAccepted(s: seq<Frame>, f: Frame, e: Event)
    requires (f == Item && e == SequenceEnd) || (f == Key && e == MappingEnd)
    ensures AcceptAll(Inside(s + [f]), [e]) == Some(Inside(s))
  {
    AcceptOne(Inside(s + [f]), e);
    assert (s + [f])[..|s|] == s;
  }

  /** The frame after `n` items. */
  function Later(f: Frame, n: nat): Frame {
    if f == Item || n % 2 == 0 then f else AfterNode(f)
  }

  lemma LaterOnce(f: Frame, n: nat)
    requires f == Item || f == Key
    ensures Later(f, n) != RootDone && AfterNode(Later(f, n)) == Later(f, n + 1)
  {
  }

  lemma NodeDoneAt(s: seq<Frame>, f: Frame)
    ensures NodeDone(s + [f]) == s + [AfterNode(f)]
  {
  }

  lemma {:induction false} AcceptItems(s: seq<Frame>, f: Frame, items: seq<Tree>)
    requires f == Item || f == Key
    requires forall i :: 0 <= i < |items| ==> ProperTree(items[i])
    ensures AcceptAll(Inside(s + [f]), FlattenItems(items)) == Some(Inside(s + [Later(f, |items|)]))
    decreases items
  {
    hide AcceptAll, Flatten, NodeDone, TakesNode;
    if items == [] {
      AcceptNothing(Inside(s + [f]));
    } else {
      var n := |items| - 1;
      AcceptItems(s, f, items[..n]);
      LaterOnce(f, n);
      TakesAnother(s, Later(f, n));
      AcceptTree(s + [Later(f, n)], items[n]);
      AcceptConcat(Inside(s + [f]), FlattenItems(items[..n]), Flatten(items[n]));
      NodeDoneAt(s, Later(f, n));
    }
  }

  lemma AcceptNothing(g: Phase)
    ensures AcceptAll(g, []) == Some(g)
  {
  }

  lemma TakesAnother(s: seq<Frame>, f: Frame)
    ensures TakesNode(s + [f]) <==> f != RootDone
  {
  }

  lemma AcceptOne(g: Phase, e: Event)
    ensures AcceptAll(g, [e]) == Accept(g, e)
  {
    assert [e][..0] == [];
  }

  lemma Assoc(a: seq<Event>, b: seq<Event>, c: seq<Event>)
    ensures a + (b + c) == a + b + c
  {
  }

  lemma {:induction false} AcceptDocuments(docs: seq<Document>)
    requires forall i :: 0 <= i < |docs| ==> ProperDocument(docs[i])
    ensures AcceptAll(Fresh, [StreamStart] + FlattenDocuments(docs)) == Some(Between)
  {
    if docs == [] {
      assert [StreamStart] + FlattenDocuments(docs) == [StreamStart];
      AcceptOne(Fresh, StreamStart);
    } else {
      var front, d := docs[..|docs| - 1], docs[|docs| - 1];
      var whole := [d.start] + Flatten(d.root) + [d.end];
      AcceptDocuments(front);
      AcceptDocument(d);
      AcceptConcat(Fresh, [StreamStart] + FlattenDocuments(front), whole);
      Assoc([StreamStart], FlattenDocuments(front), whole);
    }
  }

  /** The machine accepts every stream of proper documents. */
  lemma AcceptsStreams(docs: seq<Document>)
    requires forall i :: 0 <= i < |docs| ==> ProperDocument(docs[i])
    ensures AcceptAll(Fresh, Stream(docs)) == Some(Finished)
  {
    AcceptDocuments(docs);
    AcceptConcat(Fresh, [StreamStart] + FlattenDocuments(docs), [StreamEnd]);
    AcceptOne(Between, StreamEnd);
  }

  lemma AcceptDocument(d: Document)
    requires ProperDocument(d)
    ensures AcceptAll(Between, [d.start] + Flatten(d.root) + [d.end]) == Some(Between)
  {
    assert [d.start][..0] == [] && [d.end][..0] == [];
    assert AcceptAll(Between, [d.start]) == Some(Inside([Root]));
    AcceptTree([Root], d.root);
    AcceptConcat(Between, [d.start], Flatten(d.root));
    AcceptConcat(Between, [d.start] + Flatten(d.root), [d.end]);
    assert NodeDone([Root]) == [RootDone];
  }

  // ---------------------------------------------------------------- the machine finds the trees

  /** A document or collection not yet closed. */
  datatype Open = Open(start: Event, items: seq<Tree>)

  /** What has been read so far. `open` is empty between documents. */
  datatype Reading =
    | Unread
    | Reading(docs: seq<Document>, open: seq<Open>)
    | Whole(docs: seq<Document>)

  function SpelledOpen(open: seq<Open>): seq<Event> {
    if open == [] then []
    else
      var o := open[|open| - 1];
      SpelledOpen(open[..|open| - 1]) + ([o.start] + FlattenItems(o.items))
  }

  function Spelled(r: Reading): seq<Event> {
    match r
    case Unread => []
    case Reading(docs, open) => [StreamStart] + FlattenDocuments(docs) + SpelledOpen(open)
    case Whole(docs) => Stream(docs)
  }

  /** The grammar's frame at a level that has `n` items, complete or begun. */
  predicate StandsAt(start: Event, n: nat, f: Frame) {
    match start
    case DocumentStart(_, _, _) => n <= 1 && f == if n == 0 then Root else RootDone
    case SequenceStart(_, _, _, _) => f == Item
    case MappingStart(_, _, _, _) => f == if n % 2 == 0 then Key else Value
    case _ => false
  }

  ghost predicate Matches(r: Reading, g: Phase) {
    match r
    case Unread => g == Fresh
    case Whole(docs) => g == Finished && forall i :: 0 <= i < |docs| ==> ProperDocument(docs[i])
    case Reading(docs, open) =>
      && (forall i :: 0 <= i < |docs| ==> ProperDocument(docs[i]))
      && if open == [] then g == Between else g.Inside? && Levels(open, g.stack)
  }

  /** Each open level stands where the grammar says; below the top one child is open. */
  ghost predicate Levels(open: seq<Open>, s: seq<Frame>) {
    && |open| == |s|
    && (forall i :: 0 <= i < |open| ==> (open[i].start.DocumentStart? <==> i == 0))
    && (forall i :: 0 <= i < |open| ==>
          StandsAt(open[i].start, |open[i].items| + (if i < |open| - 1 then 1 else 0), s[i]))
    && (forall i :: 0 <= i < |open| ==> Proper(open[i].items))
  }

  ghost predicate Proper(items: seq<Tree>) {
    forall i :: 0 <= i < |items| ==> ProperTree(items[i])
  }

  /** A complete node joins the level it belongs to. */
  function AddNode(open: seq<Open>, t: Tree): seq<Open>
    requires open != []
  {
    var o := open[|open| - 1];
    open[..|open| - 1] + [Open(o.start, o.items + [t])]
  }

  function Read(r: Reading, e: Event): Reading {
    match r
    case Unread => Reading([], [])
    case Whole(_) => r
    case Reading(docs, open) =>
      if open == [] then (if e.StreamEnd? then Whole(docs) else Reading(docs, [Open(e, [])]))
      else
        var o := open[|open| - 1];
        if e.AliasEvent? || e.ScalarEvent? then Reading(docs, AddNode(open, Leaf(e)))
        else if e.SequenceStart? || e.MappingStart? then Reading(docs, open + [Open(e, [])])
        else if e.DocumentEnd? then
          (if o.items == [] then r else Reading(docs + [Document(o.start, o.items[0], e)], []))
        else if |open| == 1 then r
        else Reading(docs, AddNode(open[..|open| - 1], Collection(o.start, o.items)))
  }

  lemma SpelledAdd(open: seq<Open>, t: Tree)
    requires open != []
    ensures SpelledOpen(AddNode(open, t)) == SpelledOpen(open) + Flatten(t)
  {
    hide Flatten, FlattenItems, SpelledOpen;
    var o, below := open[|open| - 1], open[..|open| - 1];
    ItemsAdd(o.items, t);
    SpelledTop(below, o);
    SpelledTop(below, Open(o.start, o.items + [t]));
    assert below + [o] == open;
    assert SpelledOpen(below) + ([o.start] + (FlattenItems(o.items) + Flatten(t))) ==
      SpelledOpen(below) + ([o.start] + FlattenItems(o.items)) + Flatten(t);
  }

  lemma ItemsAdd(items: seq<Tree>, t: Tree)
    ensures FlattenItems(items + [t]) == FlattenItems(items) + Flatten(t)
  {
    hide Flatten;
    assert (items + [t])[..|items|] == items;
  }

  lemma SpelledTop(below: seq<Open>, o: Open)
    ensures SpelledOpen(below + [o]) == SpelledOpen(below) + ([o.start] + FlattenItems(o.items))
  {
    hide FlattenItems;
    assert (below + [o])[..|below|] == below;
  }

  lemma LevelsAdd(open: seq<Open>, s: seq<Frame>, t: Tree)
    requires Levels(open, s) && open != [] && TakesNode(s) && ProperTree(t)
    ensures Levels(AddNode(open, t), NodeDone(s))
  {
  }

  lemma LevelsOpen(open: seq<Open>, s: seq<Frame>, e: Event)
    requires Levels(open, s) && open != [] && TakesNode(s) && (e.SequenceStart? || e.MappingStart?)
    ensures Levels(open + [Open(e, [])], NodeDone(s) + [if e.SequenceStart? then Item else Key])
  {
  }

  lemma LevelsClose(open: seq<Open>, s: seq<Frame>, e: Event)
    requires Levels(open, s) && Accept(Inside(s), e).Some? && (e.SequenceEnd? || e.MappingEnd?)
    ensures |open| >= 2
    ensures var o := open[|open| - 1];
      && Levels(AddNode(open[..|open| - 1], Collection(o.start, o.items)), s[..|s| - 1])
      && Flatten(Collection(o.start, o.items)) == [o.start] + FlattenItems(o.items) + [e]
  {
    hide StandsAt, Flatten, ProperTree, FlattenItems;
    var n := |open| - 1;
    var o := open[n];
    assert StandsAt(o.start, |o.items|, s[n]) && Proper(o.items);
    hide Proper;
    ClosedTree(o, s[n], e);
    assert n >= 1;
    LevelsPop(open, s, Collection(o.start, o.items));
  }

  /** The end that the grammar allows makes a proper tree of an open collection. */
  lemma ClosedTree(o: Open, f: Frame, e: Event)
    requires StandsAt(o.start, |o.items|, f) && Proper(o.items)
    requires (f == Item && e == SequenceEnd) || (f == Key && e == MappingEnd)
    ensures !o.start.DocumentStart? && ProperTree(Collection(o.start, o.items))
    ensures Flatten(Collection(o.start, o.items)) == [o.start] + FlattenItems(o.items) + [e]
  {
    hide FlattenItems;
  }

  lemma LevelsPop(open: seq<Open>, s: seq<Frame>, t: Tree)
    requires Levels(open, s) && |open| >= 2 && ProperTree(t)
    ensures Levels(AddNode(open[..|open| - 1], t), s[..|s| - 1])
  {
    hide StandsAt, ProperTree;
    var n := |open| - 2;
    var a := AddNode(open[..n + 1], t);
    assert a == open[..n] + [Open(open[n].start, open[n].items + [t])];
    assert Proper(open[n].items);
    assert Proper(open[n].items + [t]);
    hide Proper;
    assert StandsAt(open[n].start, |open[n].items| + 1, s[n]);
    forall i | 0 <= i < |a| ensures StandsAt(a[i].start, |a[i].items| + (if i < |a| - 1 then 1 else 0), s[i]) {
      if i < n {
        assert StandsAt(open[i].start, |open[i].items| + 1, s[i]);
      }
    }
  }

  lemma ReadBetween(docs: seq<Document>, e: Event)
    requires e.DocumentStart?
    ensures Levels([Open(e, [])], [Root])
    ensures Spelled(Reading(docs, [Open(e, [])])) == Spelled(Reading(docs, [])) + [e]
  {
    var open := [Open(e, [])];
    assert open[..0] == [];
    assert SpelledOpen(open) == [] + ([e] + []);
    Assoc([StreamStart] + FlattenDocuments(docs), [], [e]);
  }

  lemma ReadLeaf(docs: seq<Document>, open: seq<Open>, e: Event)
    requires open != []
    ensures Spelled(Reading(docs, AddNode(open, Leaf(e)))) == Spelled(Reading(docs, open)) + [e]
  {
    SpelledAdd(open, Leaf(e));
    Assoc([StreamStart] + FlattenDocuments(docs), SpelledOpen(open), [e]);
  }

  lemma ReadStart(docs: seq<Document>, open: seq<Open>, e: Event)
    ensures Spelled(Reading(docs, open + [Open(e, [])])) == Spelled(Reading(docs, open)) + [e]
  {
    var open' := open + [Open(e, [])];
    assert open'[..|open|] == open;
    assert [e] + FlattenItems([]) == [e];
    Assoc([StreamStart] + FlattenDocuments(docs), SpelledOpen(open), [e]);
  }

  lemma ReadEnd(docs: seq<Document>, open: seq<Open>, e: Event)
    requires |open| >= 2
    requires var o := open[|open| - 1];
      Flatten(Collection(o.start, o.items)) == [o.start] + FlattenItems(o.items) + [e]
    ensures var o := open[|open| - 1];
      Spelled(Reading(docs, AddNode(open[..|open| - 1], Collection(o.start, o.items)))) ==
        Spelled(Reading(docs, open)) + [e]
  {
    var o, below := open[|open| - 1], open[..|open| - 1];
    SpelledAdd(below, Collection(o.start, o.items));
    Assoc(SpelledOpen(below), [o.start] + FlattenItems(o.items), [e]);
    Assoc([StreamStart] + FlattenDocuments(docs), SpelledOpen(open), [e]);
  }

  lemma OneMoreDocument(docs: seq<Document>, d: Document)
    ensures FlattenDocuments(docs + [d]) == FlattenDocuments(docs) + ([d.start] + Flatten(d.root) + [d.end])
  {
    assert (docs + [d])[..|docs|] == docs;
  }

  lemma RootSpelled(o: Open)
    requires |o.items| == 1
    ensures SpelledOpen([o]) == [o.start] + Flatten(o.items[0])
  {
    assert o.items[..0] == [] && [o][..0] == [];
    assert FlattenItems(o.items) == [] + Flatten(o.items[0]) == Flatten(o.items[0]);
    assert SpelledOpen([o]) == [] + ([o.start] + FlattenItems(o.items));
  }

  lemma ReadDocumentEnd(docs: seq<Document>, o: Open, e: Event)
    requires |o.items| == 1
    ensures Spelled(Reading(docs + [Document(o.start, o.items[0], e)], [])) == Spelled(Reading(docs, [o])) + [e]
  {
    var d := Document(o.start, o.items[0], e);
    OneMoreDocument(docs, d);
    RootSpelled(o);
    Assoc([StreamStart], FlattenDocuments(docs), [d.start] + Flatten(d.root) + [e]);
    Assoc([StreamStart] + FlattenDocuments(docs), [d.start] + Flatten(d.root), [e]);
    hide Flatten, FlattenDocuments;
    assert Spelled(Reading(docs + [d], [])) == [StreamStart] + FlattenDocuments(docs + [d]) + [];
  }

  lemma ReadInsideKeeps(docs: seq<Document>, open: seq<Open>, s: seq<Frame>, e: Event)
    requires Matches(Reading(docs, open), Inside(s)) && open != [] && Accept(Inside(s), e).Some?
    requires !e.DocumentEnd?
    ensures Matches(Read(Reading(docs, open), e), Accept(Inside(s), e).value)
    ensures Spelled(Read(Reading(docs, open), e)) == Spelled(Reading(docs, open)) + [e]
  {
    hide Levels, Spelled, Flatten;
    if e.AliasEvent? || e.ScalarEvent? {
      LevelsAdd(open, s, Leaf(e));
      ReadLeaf(docs, open, e);
    } else if e.SequenceStart? || e.MappingStart? {
      LevelsOpen(open, s, e);
      ReadStart(docs, open, e);
    } else {
      LevelsClose(open, s, e);
      ReadEnd(docs, open, e);
    }
  }

  /** Reading follows the grammar and spells back every event. */
  lemma ReadKeeps(r: Reading, g: Phase, e: Event)
    requires Matches(r, g) && Accept(g, e).Some?
    ensures Matches(Read(r, e), Accept(g, e).value)
    ensures Spelled(Read(r, e)) == Spelled(r) + [e]
  {
    if r.Reading? {
      if r.open == [] {
        if e.DocumentStart? {
          ReadBetween(r.docs, e);
        } else {
          assert Spelled(r) == [StreamStart] + FlattenDocuments(r.docs);
        }
      } else if e.DocumentEnd? {
        assert r.open == [r.open[0]];
        ReadDocumentEnd(r.docs, r.open[0], e);
      } else {
        ReadInsideKeeps(r.docs, r.open, g.stack, e);
      }
    }
  }

  lemma NothingSpelled()
    ensures Matches(Unread, Fresh) && Spelled(Unread) == []
  {
  }

  /** Every accepted event sequence spells a reading; a finished one spells a whole stream of
      proper documents. */
  lemma {:induction false} AcceptedSpells(events: seq<Event>) returns (r: Reading)
    requires AcceptAll(Fresh, events).Some?
    ensures Matches(r, AcceptAll(Fresh, events).value) && Spelled(r) == events
  {
    NothingSpelled();
    hide Matches, Spelled, Read, Accept;
    if events == [] {
      r := Unread;
    } else {
      var n := |events| - 1;
      var before := AcceptedSpells(events[..n]);
      ReadKeeps(before, AcceptAll(Fresh, events[..n]).value, events[n]);
      r := Read(before, events[n]);
      assert events == events[..n] + [events[n]];
    }
  }

  ghost predicate ProperDocuments(docs: seq<Document>) {
    forall i :: 0 <= i < |docs| ==> ProperDocument(docs[i])
  }

  /** The events of some stream of proper documents. */
  ghost predicate IsStream(events: seq<Event>) {
    exists docs: seq<Document> :: ProperDocuments(docs) && events == Stream(docs)
  }

  /** The machine is the grammar: it finishes on exactly the streams of proper documents. */
  lemma FinishedIffStream(events: seq<Event>)
    ensures AcceptAll(Fresh, events) == Some(Finished) <==> IsStream(events)
  {
    if AcceptAll(Fresh, events) == Some(Finished) {
      var r := AcceptedSpells(events);
      assert ProperDocuments(r.docs) && events == Stream(r.docs);
    }
    if IsStream(events) {
      var docs: seq<Document> :| ProperDocuments(docs) && events == Stream(docs);
      AcceptsStreams(docs);
    }
  }

  // ---------------------------------------------------------------- the machine never strays

  const FILLER := ScalarEvent(None, None, [], true, false, Plain)

  /** A stack the grammar can have: a document's frame, and those of open collections above. */
  predicate Stackable(s: seq<Frame>) {
    && s != [] && (s[0] == Root || s[0] == RootDone)
    && forall i :: 1 <= i < |s| ==> s[i] == Item || s[i] == Key || s[i] == Value
  }

  /** Events that close an open collection; a value must come first if one is due. */
  function Closer(f: Frame): seq<Event> {
    match f
    case Item => [SequenceEnd]
    case Key => [MappingEnd]
    case _ => [FILLER, MappingEnd]
  }

  /** Events that close all the open frames from the top, and the stream. */
  function Unwinding(s: seq<Frame>): seq<Event>
    requires Stackable(s)
  {
    var top := s[|s| - 1];
    if |s| == 1 then (if top == Root then [FILLER] else []) + [DocumentEnd(true), StreamEnd]
    else Closer(top) + Unwinding(s[..|s| - 1])
  }

  lemma AcceptTwo(g: Phase, e: Event, d: Event)
    ensures AcceptAll(g, [e, d]) == if Accept(g, e).None? then None else Accept(Accept(g, e).value, d)
  {
    AcceptOne(g, e);
    AcceptOne(if Accept(g, e).None? then g else Accept(g, e).value, d);
    AcceptConcat(g, [e], [d]);
    assert [e] + [d] == [e, d];
  }

  /** Closing the top frame of an open collection leaves what is below it. */
  lemma TopCloses(s: seq<Frame>)
    requires Stackable(s) && |s| > 1
    ensures AcceptAll(Inside(s), Closer(s[|s| - 1])) == Some(Inside(s[..|s| - 1]))
  {
    AcceptOne(Inside(s), SequenceEnd);
    AcceptOne(Inside(s), MappingEnd);
    AcceptTwo(Inside(s), FILLER, MappingEnd);
  }

  lemma {:induction false} UnwindingCloses(s: seq<Frame>)
    requires Stackable(s)
    ensures AcceptAll(Inside(s), Unwinding(s)) == Some(Finished)
  {
    hide AcceptAll, Accept;
    if |s| == 1 {
      RootCloses(s[0]);
      assert s == [s[0]];
    } else {
      TopCloses(s);
      UnwindingCloses(s[..|s| - 1]);
      AcceptConcat(Inside(s), Closer(s[|s| - 1]), Unwinding(s[..|s| - 1]));
    }
  }

  lemma RootCloses(f: Frame)
    requires f == Root || f == RootDone
    ensures AcceptAll(Inside([f]), Unwinding([f])) == Some(Finished)
  {
    AcceptTwo(Inside([RootDone]), DocumentEnd(true), StreamEnd);
    AcceptOne(Inside([Root]), FILLER);
    AcceptConcat(Inside([Root]), [FILLER], [DocumentEnd(true), StreamEnd]);
    assert NodeDone([Root]) == [RootDone];
    assert [] + [DocumentEnd(true), StreamEnd] == [DocumentEnd(true), StreamEnd];
  }

  lemma LevelsStackable(open: seq<Open>, s: seq<Frame>)
    requires open != [] && Levels(open, s)
    ensures Stackable(s)
  {
    forall i | 0 <= i < |s|
      ensures if i == 0 then s[i] == Root || s[i] == RootDone else s[i] == Item || s[i] == Key || s[i] == Value
    {
      assert StandsAt(open[i].start, |open[i].items| + (if i < |open| - 1 then 1 else 0), s[i]);
    }
  }

  /** Events that complete a stream from any phase that accepted events lead to. */
  lemma Completion(events: seq<Event>) returns (rest: seq<Event>)
    requires AcceptAll(Fresh, events).Some?
    ensures AcceptAll(Fresh, events + rest) == Some(Finished)
  {
    var r := AcceptedSpells(events);
    var g := AcceptAll(Fresh, events).value;
    hide Levels, Spelled, AcceptAll;
    if g.Inside? {
      LevelsStackable(r.open, g.stack);
      UnwindingCloses(g.stack);
      rest := Unwinding(g.stack);
    } else if g.Finished? {
      rest := [];
      assert events + rest == events;
    } else if g.Between? {
      AcceptOne(g, StreamEnd);
      rest := [StreamEnd];
    } else {
      AcceptTwo(g, StreamStart, StreamEnd);
      rest := [StreamStart, StreamEnd];
    }
    AcceptConcat(Fresh, events, rest);
  }

  /** The events of some stream of proper documents, as far as it goes. */
  ghost predicate BeginsStream(events: seq<Event>) {
    exists rest: seq<Event> :: IsStream(events + rest)
  }

  /** The machine accepts exactly what some stream begins with. */
  lemma AcceptedIffBegins(events: seq<Event>)
    ensures AcceptAll(Fresh, events).Some? <==> BeginsStream(events)
  {
    hide AcceptAll, IsStream;
    if AcceptAll(Fresh, events).Some? {
      var rest := Completion(events);
      FinishedIffStream(events + rest);
    }
    if BeginsStream(events) {
      var rest :| IsStream(events + rest);
      FinishedIffStream(events + rest);
      AcceptConcat(Fresh, events, rest);
    }
  }
}
