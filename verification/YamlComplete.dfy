/**
 The parser reads what is written: for the tokens that spell any documents, it emits exactly the
 events of what those mean, and gets to the end of the stream.
 */
module YamlComplete {
  import opened Bytes
  import opened YamlEvents
  import opened YamlTokens
  import opened YamlSyntax
  import opened YamlParser

  // ---------------------------------------------------------------- runs

  /** From `p` the parser emits `events` and then goes on as from `q`. */
  ghost predicate Leads(p: Parser, events: seq<Event>, q: Parser) {
    Inv(p) && Inv(q) && Run(p) == Log(events + Run(q).events, Run(q).last)
  }

  lemma {:induction false} LeadsSelf(p: Parser)
    requires Inv(p)
    ensures Leads(p, [], p)
  {
    hide Run, Inv;
    assert [] + Run(p).events == Run(p).events;
  }

  lemma {:induction false} LeadsOn(p: Parser, a: seq<Event>, q: Parser, b: seq<Event>, r: Parser)
    requires Leads(p, a, q) && Leads(q, b, r)
    ensures Leads(p, a + b, r)
  {
    hide Run, Inv;
    assert a + (b + Run(r).events) == a + b + Run(r).events;
  }

  lemma {:induction false} LeadsStep(p: Parser, e: Event, q: Parser)
    requires Inv(p) && Step(p) == Emit(e, q)
    ensures Leads(p, [e], q)
  {
    hide Step, Inv, Potential, Grammar;
    StepAdvances(p);
  }

  /** Two states with the same step run alike. */
  lemma {:induction false} LeadsAlike(p: Parser, q: Parser, events: seq<Event>, r: Parser)
    requires Inv(p) && Leads(q, events, r) && Step(p) == Step(q) && events != []
    ensures Leads(p, events, r)
  {
    hide Step, Inv, Potential, Grammar;
    StepAdvances(p);
  }

  // ---------------------------------------------------------------- tokens

  predicate Spells(tokens: seq<Token>, kinds: seq<Kind>) {
    |kinds| <= |tokens| && forall i :: 0 <= i < |kinds| ==> tokens[i].kind == kinds[i]
  }

  lemma {:induction false} SpellsBoth(tokens: seq<Token>, a: seq<Kind>, b: seq<Kind>)
    requires Spells(tokens, a + b)
    ensures Spells(tokens, a) && Spells(tokens[|a|..], b)
    ensures tokens[|a|..][|b|..] == tokens[|a + b|..]
  {
    forall i | 0 <= i < |a| ensures tokens[i].kind == a[i] {
      assert (a + b)[i] == a[i];
    }
    forall i | 0 <= i < |b| ensures tokens[|a|..][i].kind == b[i] {
      assert (a + b)[|a| + i] == b[i];
    }
  }

  /** What may begin a node. */
  predicate Begins(k: Kind, block: bool, indentless: bool) {
    || k.AliasT? || k.AnchorT? || k.TagT? || k.ScalarT? || k.FlowSequenceStartT? || k.FlowMappingStartT?
    || (block && (k.BlockSequenceStartT? || k.BlockMappingStartT?)) || (indentless && k.BlockEntryT?)
  }

  /** What may follow a node; a sequence without indentation only a key or value can be. */
  predicate MayFollow(k: Kind, indentless: bool) {
    || k.BlockEndT? || k.KeyT? || k.ValueT?
    || (!indentless &&
        (k.FlowEntryT? || k.FlowSequenceEndT? || k.FlowMappingEndT? || k.VersionT? || k.TagDirectiveT?
         || k.DocumentStartT? || k.DocumentEndT? || k.StreamEndT? || k.BlockEntryT?))
  }

  /** What comes `n` tokens on may follow a node. */
  predicate Followed(tokens: seq<Token>, n: nat, indentless: bool) {
    n < |tokens| && MayFollow(tokens[n].kind, indentless)
  }

  lemma {:induction false} FirstKind(t: Node, scope: Scope, block: bool, indentless: bool)
    requires Writable(t, scope, block, indentless)
    ensures NodeKinds(t) != [] && Begins(NodeKinds(t)[0], block, indentless)
  {
    if t.Group? && t.form.Indentless? && t.props == [] {
      IndentlessFirst(t.entries, scope);
      assert NodeKinds(t) == EntriesKinds(t.form, t.entries);
    }
    hide EntriesKinds, WritableEntry;
  }

  lemma {:induction false} IndentlessFirst(entries: seq<Entry>, scope: Scope)
    requires entries != [] && forall i :: 0 <= i < |entries| ==> WritableEntry(Indentless, entries[i], scope)
    ensures EntriesKinds(Indentless, entries) != [] && EntriesKinds(Indentless, entries)[0] == BlockEntryT
  {
    var n := |entries| - 1;
    if n > 0 {
      IndentlessFirst(entries[..n], scope);
    } else {
      assert entries[..0] == [] && WritableEntry(Indentless, entries[0], scope);
    }
  }

  // ---------------------------------------------------------------- properties

  /** The parser's directives mean what the scope says. */
  ghost predicate Means(ds: seq<TagDirective>, scope: Scope) {
    forall h :: h in scope ==> Found(ds, h, scope[h])
  }

  predicate Found(ds: seq<TagDirective>, h: Name, prefix: Name) {
    var k := FindDirective(ds, h);
    k < |ds| && ds[k].prefix == prefix
  }

  function TagPair(props: seq<Kind>): Option<(Name, Name)> {
    if props == [] then None
    else if props[0].TagT? then Some((props[0].handle, props[0].suffix)) else TagPair(props[1..])
  }

  lemma {:induction false} TagResolved(props: seq<Kind>, ds: seq<TagDirective>, scope: Scope)
    requires WritableProps(props, scope) && Means(ds, scope)
    ensures TagPair(props).None? ==> TagOf(props, scope) == None
    ensures TagPair(props).Some? ==>
      TagOf(props, scope).Some? && ResolveTag(ds, TagPair(props).value.0, TagPair(props).value.1) == TagOf(props, scope)
  {
    hide Means, ResolveTag;
    if props != [] {
      if props[0].TagT? {
        TagHere(props[0], ds, scope);
      } else {
        TagResolved(props[1..], ds, scope);
      }
    }
  }

  lemma {:induction false} TagHere(k: Kind, ds: seq<TagDirective>, scope: Scope)
    requires k.TagT? && (k.handle == [] || k.handle in scope) && Means(ds, scope)
    ensures ResolveTag(ds, k.handle, k.suffix) ==
      Some((if k.handle in scope && k.handle != [] then scope[k.handle] else []) + k.suffix)
  {
    hide FindDirective;
    if k.handle != [] {
      assert Found(ds, k.handle, scope[k.handle]);
    } else {
      assert [] + k.suffix == k.suffix;
    }
  }

  lemma {:induction false} PropsRead(tokens: seq<Token>, props: seq<Kind>, scope: Scope)
    requires Spells(tokens, props) && WritableProps(props, scope) && |props| < |tokens|
    requires var k := tokens[|props|].kind; !k.AnchorT? && !k.TagT?
    ensures ReadProperties(tokens) == Some(Properties(AnchorOf(props), TagPair(props), tokens[|props|..]))
  {
    if |props| == 0 {
      assert tokens[0..] == tokens;
    } else if |props| == 1 {
      assert props[1..] == [];
      assert tokens[1..][0] == tokens[1];
    } else {
      assert props[1..][0] == props[1] && props[1..][1..] == [];
      assert tokens[1..][0] == tokens[1] && tokens[1..][1..] == tokens[2..];
    }
  }

  /** A node's first event is that of its content, once its properties have been read. */
  lemma {:induction false} NodeRead(q: Parser, block: bool, indentless: bool, props: seq<Kind>, scope: Scope)
    requires q.states != [] && Means(q.directives, scope)
    requires Spells(q.tokens, props) && WritableProps(props, scope) && |props| < |q.tokens|
    requires var k := q.tokens[|props|].kind; !k.AnchorT? && !k.TagT? && !k.AliasT?
    ensures ParseNode(q, block, indentless) ==
      ParseContent(q.(tokens := q.tokens[|props|..]), block, indentless, AnchorOf(props), TagOf(props, scope))
  {
    hide ParseContent;
    PropsRead(q.tokens, props, scope);
    TagResolved(props, q.directives, scope);
    hide TagPair, TagOf, AnchorOf, ResolveTag, ReadProperties;
    if props != [] {
      assert q.tokens[0].kind == props[0];
    }
  }

  // ---------------------------------------------------------------- one node

  /** Behind a node of `n` tokens: back to the state pushed last. */
  function Behind(q: Parser, n: nat): Parser
    requires q.states != [] && n <= |q.tokens|
  {
    Popped(q).(tokens := q.tokens[n..])
  }

  /** Parsing a node at `q` emits its first event, and the rest of them follow. */
  ghost predicate Parses(q: Parser, block: bool, indentless: bool, t: Tree, after: Parser)
    requires q.states != []
  {
    var out := ParseNode(q, block, indentless);
    out.Emit? && out.event == Flatten(t)[0] && (Inv(out.next) ==> Leads(out.next, Flatten(t)[1..], after))
  }

  /** A step that parses a node goes through all of it. */
  lemma {:induction false} Taken(p: Parser, q: Parser, block: bool, indentless: bool, t: Tree, after: Parser)
    requires Inv(p) && q.states != [] && Step(p) == ParseNode(q, block, indentless)
    requires Parses(q, block, indentless, t, after)
    ensures Leads(p, Flatten(t), after)
  {
    hide Step, Inv, ParseNode, Potential, Grammar, Leads, Flatten;
    FlattenFirst(t);
    StepAdvances(p);
    var out := Step(p);
    LeadsStep(p, out.event, out.next);
    LeadsOn(p, [out.event], out.next, Flatten(t)[1..], after);
  }

  lemma {:induction false} FlattenFirst(t: Tree)
    ensures Flatten(t) != [] && [Flatten(t)[0]] + Flatten(t)[1..] == Flatten(t)
  {
  }

  lemma {:induction false} AliasParses(q: Parser, block: bool, indentless: bool, name: Name)
    requires q.states != [] && Spells(q.tokens, [AliasT(name)])
    ensures Parses(q, block, indentless, Leaf(AliasEvent(name)), Behind(q, 1))
  {
    hide Inv, Leads;
    assert Skipped(Popped(q)) == Behind(q, 1);
    LeafParses(q, block, indentless, AliasEvent(name), Behind(q, 1));
  }

  lemma {:induction false} LeafParses(q: Parser, block: bool, indentless: bool, e: Event, after: Parser)
    requires q.states != [] && ParseNode(q, block, indentless) == Emit(e, after)
    ensures Parses(q, block, indentless, Leaf(e), after)
  {
    hide Inv, Leads, ParseNode;
    assert Flatten(Leaf(e)) == [e] && [e][1..] == [];
    if Inv(after) {
      LeadsSelf(after);
    }
  }

  lemma {:induction false} WordParses(q: Parser, block: bool, indentless: bool, props: seq<Kind>, value: Name,
      style: ScalarStyle, scope: Scope)
    requires q.states != [] && Means(q.directives, scope)
    requires Writable(Word(props, value, style), scope, block, indentless)
    requires Spells(q.tokens, NodeKinds(Word(props, value, style)))
    ensures Parses(q, block, indentless, Meaning(Word(props, value, style), scope), Behind(q, |props| + 1))
  {
    hide Inv, Leads, ParseNode, TagOf, AnchorOf, Means;
    SpellsBoth(q.tokens, props, [ScalarT(value, style)]);
    NodeRead(q, block, indentless, props, scope);
    assert BANG == Ascii("!");
    LeafParses(q, block, indentless, Meaning(Word(props, value, style), scope).event, Behind(q, |props| + 1));
  }

  lemma {:induction false} BlankParses(q: Parser, block: bool, indentless: bool, props: seq<Kind>, scope: Scope)
    requires q.states != [] && Means(q.directives, scope)
    requires Writable(Blank(props), scope, block, indentless) && Spells(q.tokens, props)
    requires Followed(q.tokens, |props|, indentless)
    ensures Parses(q, block, indentless, Meaning(Blank(props), scope), Behind(q, |props|))
  {
    hide Inv, Leads, ParseNode, Means;
    NodeRead(q, block, indentless, props, scope);
    SomeProps(props, scope);
    hide TagOf, AnchorOf;
    LeafParses(q, block, indentless, Meaning(Blank(props), scope).event, Behind(q, |props|));
  }

  lemma {:induction false} SomeProps(props: seq<Kind>, scope: Scope)
    requires WritableProps(props, scope) && props != []
    ensures AnchorOf(props).Some? || TagOf(props, scope).Some?
  {
  }

  // ---------------------------------------------------------------- slots

  function At(q: Parser, s: State, n: nat): Parser
    requires n <= |q.tokens|
  {
    q.(state := s, tokens := q.tokens[n..])
  }

  lemma {:induction false} SlotFirst(tokens: seq<Token>, t: Node, scope: Scope, block: bool, indentless: bool)
    requires Writable(t, scope, block, indentless) && Spells(tokens, NodeKinds(t))
    ensures tokens != [] && Begins(tokens[0].kind, block, indentless) && !t.Missing?
  {
    hide NodeKinds;
    FirstKind(t, scope, block, indentless);
  }

  /** Where a node may be left out: a step that parses it or, if it is left out, makes it an
      empty scalar, goes through all of it to the state that follows. */
  lemma {:induction false} Slot(p: Parser, q: Parser, s: State, block: bool, indentless: bool, t: Node, scope: Scope)
    requires Inv(p) && WritableSlot(t, scope, block, indentless) && Means(q.directives, scope)
    requires Spells(q.tokens, NodeKinds(t)) && Followed(q.tokens, |NodeKinds(t)|, indentless)
    requires Step(p) == if t.Missing? then EmptyScalar(q, s) else ParseNode(Pushed(q, s), block, indentless)
    ensures Leads(p, Flatten(Meaning(t, scope)), At(q, s, |NodeKinds(t)|))
    decreases t, 1
  {
    hide Step, Inv, ParseNode, Leads, Means, Writable, Parses;
    if t.Missing? {
      LeadsStep(p, EMPTY, q.(state := s));
      assert q.tokens[0..] == q.tokens;
    } else {
      hide NodeKinds, Meaning;
      var q' := Pushed(q, s);
      NodeParses(t, q', block, indentless, scope);
      assert q'.states[..|q.states|] == q.states;
      Taken(p, q', block, indentless, Meaning(t, scope), Behind(q', |NodeKinds(t)|));
    }
  }

  // ---------------------------------------------------------------- entries

  function EntryState(form: Form): State {
    match form
    case BlockSequence => BlockSequenceEntryS
    case Indentless => IndentlessSequenceEntryS
    case BlockMapping => BlockMappingKeyS
    case FlowSequence => FlowSequenceEntryS
    case FlowMapping => FlowMappingKeyS
  }

  /** What may follow an entry. */
  predicate EntryFollows(form: Form, k: Kind) {
    match form
    case BlockSequence => k.BlockEntryT? || k.BlockEndT?
    case Indentless => k.BlockEntryT? || MayFollow(k, true)
    case BlockMapping => k.KeyT? || k.BlockEndT?
    case FlowSequence => k.FlowEntryT? || k.FlowSequenceEndT?
    case FlowMapping => k.FlowEntryT? || k.FlowMappingEndT?
  }

  /** An entry behind the comma that parts it from those before. */
  function Signed(form: Form, e: Entry): seq<Kind> {
    (if IsFlow(form) then [FlowEntryT] else []) + EntryKinds(form, e)
  }

  lemma {:induction false} FlattenTwo(a: Tree, b: Tree)
    ensures FlattenItems([a]) == Flatten(a)
    ensures FlattenItems([a, b]) == Flatten(a) + Flatten(b)
  {
    hide Flatten;
    assert [a][..0] == [] && FlattenItems([]) == [];
    assert [a, b][..1] == [a];
    assert [] + Flatten(a) == Flatten(a);
  }

  // What one step does where a node may come.

  lemma {:induction false} StepBlockSequence(p: Parser)
    requires Inv(p) && p.state == BlockSequenceEntryS
    requires |p.tokens| >= 2 && p.tokens[0].kind.BlockEntryT?
    ensures var q := Skipped(p); var k := q.tokens[0].kind;
      && ((k.BlockEntryT? || k.BlockEndT?) ==> Step(p) == EmptyScalar(q, BlockSequenceEntryS))
      && (Begins(k, true, false) ==> Step(p) == ParseNode(Pushed(q, BlockSequenceEntryS), true, false))
  {
    hide ParseNode;
    assert Skipped(p).tokens[0] == p.tokens[1];
  }

  lemma {:induction false} StepIndentless(p: Parser)
    requires Inv(p) && p.state == IndentlessSequenceEntryS
    requires |p.tokens| >= 2 && p.tokens[0].kind.BlockEntryT?
    ensures var q := Skipped(p); var k := q.tokens[0].kind;
      && ((k.BlockEntryT? || k.KeyT? || k.ValueT? || k.BlockEndT?) ==>
        Step(p) == EmptyScalar(q, IndentlessSequenceEntryS))
      && (Begins(k, true, false) ==> Step(p) == ParseNode(Pushed(q, IndentlessSequenceEntryS), true, false))
  {
    hide ParseNode;
    assert Skipped(p).tokens[0] == p.tokens[1];
  }

  lemma {:induction false} NotDelimiter(k: Kind, block: bool, indentless: bool)
    ensures Begins(k, block, indentless) ==> !k.KeyT? && !k.ValueT? && !k.BlockEndT?
  {
  }

  lemma {:induction false} StepBlockKey(p: Parser)
    requires Inv(p) && p.state == BlockMappingKeyS
    requires |p.tokens| >= 2 && p.tokens[0].kind.KeyT?
    ensures var q := Skipped(p); var k := q.tokens[0].kind;
      && ((k.KeyT? || k.ValueT? || k.BlockEndT?) ==> Step(p) == EmptyScalar(q, BlockMappingValueS))
      && (Begins(k, true, true) ==> Step(p) == ParseNode(Pushed(q, BlockMappingValueS), true, true))
  {
    hide ParseNode, Begins;
    assert Step(p) == ParseBlockMappingKey(p, false);
    hide Step, Inv;
    assert Skipped(p).tokens[0] == p.tokens[1];
    NotDelimiter(p.tokens[1].kind, true, true);
  }

  lemma {:induction false} StepBlockValue(p: Parser)
    requires Inv(p) && p.state == BlockMappingValueS
    requires |p.tokens| >= 2 && p.tokens[0].kind.ValueT?
    ensures var q := Skipped(p); var k := q.tokens[0].kind;
      && ((k.KeyT? || k.ValueT? || k.BlockEndT?) ==> Step(p) == EmptyScalar(q, BlockMappingKeyS))
      && (Begins(k, true, true) ==> Step(p) == ParseNode(Pushed(q, BlockMappingKeyS), true, true))
  {
    hide ParseNode, Begins;
    assert Step(p) == ParseBlockMappingValue(p);
    hide Step, Inv;
    assert Skipped(p).tokens[0] == p.tokens[1];
    NotDelimiter(p.tokens[1].kind, true, true);
  }

  lemma {:induction false} StepFlowKey(p: Parser)
    requires Inv(p) && p.state == FlowMappingKeyS
    requires |p.tokens| >= 3 && p.tokens[0].kind.FlowEntryT? && p.tokens[1].kind.KeyT?
    ensures var q := Skipped(Skipped(p)); var k := q.tokens[0].kind;
      && ((k.ValueT? || k.FlowEntryT? || k.FlowMappingEndT?) ==> Step(p) == EmptyScalar(q, FlowMappingValueS))
      && (Begins(k, false, false) ==> Step(p) == ParseNode(Pushed(q, FlowMappingValueS), false, false))
  {
    hide ParseNode;
    assert Skipped(Skipped(p)).tokens[0] == p.tokens[2];
  }

  lemma {:induction false} StepFlowValue(p: Parser)
    requires Inv(p) && p.state == FlowMappingValueS
    requires |p.tokens| >= 2 && p.tokens[0].kind.ValueT?
    ensures var q := Skipped(p); var k := q.tokens[0].kind;
      && ((k.FlowEntryT? || k.FlowMappingEndT?) ==> Step(p) == EmptyScalar(q, FlowMappingKeyS))
      && (Begins(k, false, false) ==> Step(p) == ParseNode(Pushed(q, FlowMappingKeyS), false, false))
  {
    hide ParseNode;
    assert Skipped(p).tokens[0] == p.tokens[1];
  }

  lemma {:induction false} StepPairValue(p: Parser)
    requires Inv(p) && p.state == FlowSequenceEntryMappingValueS
    requires |p.tokens| >= 2 && p.tokens[0].kind.ValueT?
    ensures var q := Skipped(p); var k := q.tokens[0].kind;
      && ((k.FlowEntryT? || k.FlowSequenceEndT?) ==> Step(p) == EmptyScalar(q, FlowSequenceEntryMappingEndS))
      && (Begins(k, false, false) ==> Step(p) == ParseNode(Pushed(q, FlowSequenceEntryMappingEndS), false, false))
  {
    hide ParseNode;
    assert Skipped(p).tokens[0] == p.tokens[1];
  }

  lemma {:induction false} StepPairKey(p: Parser)
    requires Inv(p) && p.state == FlowSequenceEntryMappingKeyS && p.tokens != []
    requires Begins(p.tokens[0].kind, false, false)
    ensures Step(p) == ParseNode(Pushed(p, FlowSequenceEntryMappingValueS), false, false)
  {
    hide ParseNode;
  }

  lemma {:induction false} StepFlowItem(p: Parser)
    requires Inv(p) && (p.state == FlowSequenceEntryS || p.state == FlowMappingKeyS)
    requires |p.tokens| >= 2 && p.tokens[0].kind.FlowEntryT?
    requires Begins(p.tokens[1].kind, false, false)
    ensures Step(p) == ParseNode(Pushed(Skipped(p),
      if p.state == FlowMappingKeyS then FlowMappingEmptyValueS else FlowSequenceEntryS), false, false)
  {
    hide ParseNode;
    assert Skipped(p).tokens[0] == p.tokens[1];
  }

  lemma {:induction false} ItemOfBlock(form: Form, p: Parser, t: Node, scope: Scope)
    requires form == BlockSequence || form == Indentless
    requires Inv(p) && p.state == EntryState(form) && WritableSlot(t, scope, true, false) && Means(p.directives, scope)
    requires Spells(p.tokens, [BlockEntryT] + NodeKinds(t)) && |NodeKinds(t)| + 1 < |p.tokens|
    requires EntryFollows(form, p.tokens[|NodeKinds(t)| + 1].kind)
    ensures Leads(p, Flatten(Meaning(t, scope)), p.(tokens := p.tokens[|NodeKinds(t)| + 1..]))
    decreases t, 2
  {
    hide Begins, Leads, Inv, Step, Means, NodeKinds, Writable, Meaning, Flatten, ParseNode;
    SpellsBoth(p.tokens, [BlockEntryT], NodeKinds(t));
    var q := Skipped(p);
    if form == BlockSequence {
      StepBlockSequence(p);
    } else {
      StepIndentless(p);
    }
    if t.Missing? {
      NothingSpelled();
      Slot(p, q, p.state, true, false, t, scope);
    } else {
      SlotFirst(q.tokens, t, scope, true, false);
      Slot(p, q, p.state, true, false, t, scope);
    }
  }

  lemma {:induction false} NothingSpelled()
    ensures NodeKinds(Missing) == []
  {
  }

  /** KEY and what follows it: the key of a block mapping. */
  lemma {:induction false} KeyOfBlock(p: Parser, t: Node, scope: Scope)
    requires Inv(p) && p.state == BlockMappingKeyS && WritableSlot(t, scope, true, true) && Means(p.directives, scope)
    requires Spells(p.tokens, [KeyT] + NodeKinds(t)) && |NodeKinds(t)| + 1 < |p.tokens|
    requires var k := p.tokens[|NodeKinds(t)| + 1].kind; k.ValueT? || k.KeyT? || k.BlockEndT?
    ensures Leads(p, Flatten(Meaning(t, scope)), At(p, BlockMappingValueS, |NodeKinds(t)| + 1))
    decreases t, 2
  {
    hide Begins, Leads, Inv, Step, Means, NodeKinds, Writable, Meaning, Flatten, ParseNode;
    SpellsBoth(p.tokens, [KeyT], NodeKinds(t));
    var q := Skipped(p);
    StepBlockKey(p);
    if t.Missing? {
      NothingSpelled();
      Slot(p, q, BlockMappingValueS, true, true, t, scope);
    } else {
      SlotFirst(q.tokens, t, scope, true, true);
      Slot(p, q, BlockMappingValueS, true, true, t, scope);
    }
  }

  lemma {:induction false} ValueOfBlock(p: Parser, t: Node, scope: Scope)
    requires Inv(p) && p.state == BlockMappingValueS && WritableSlot(t, scope, true, true) && Means(p.directives, scope)
    requires Spells(p.tokens, [ValueT] + NodeKinds(t)) && |NodeKinds(t)| + 1 < |p.tokens|
    requires var k := p.tokens[|NodeKinds(t)| + 1].kind; k.KeyT? || k.BlockEndT?
    ensures Leads(p, Flatten(Meaning(t, scope)), At(p, BlockMappingKeyS, |NodeKinds(t)| + 1))
    decreases t, 2
  {
    hide Begins, Leads, Inv, Step, Means, NodeKinds, Writable, Meaning, Flatten, ParseNode;
    SpellsBoth(p.tokens, [ValueT], NodeKinds(t));
    var q := Skipped(p);
    StepBlockValue(p);
    if t.Missing? {
      NothingSpelled();
      Slot(p, q, BlockMappingKeyS, true, true, t, scope);
    } else {
      SlotFirst(q.tokens, t, scope, true, true);
      Slot(p, q, BlockMappingKeyS, true, true, t, scope);
    }
  }

  /** A value that is not even announced. */
  lemma {:induction false} NoValue(p: Parser, next: State)
    requires Inv(p) && p.tokens != [] && !p.tokens[0].kind.ValueT?
    requires (p.state == BlockMappingValueS && next == BlockMappingKeyS)
      || (p.state == FlowMappingValueS && next == FlowMappingKeyS)
      || (p.state == FlowSequenceEntryMappingValueS && next == FlowSequenceEntryMappingEndS)
    ensures Leads(p, Flatten(NOTHING), At(p, next, 0))
  {
    hide Leads, Inv;
    assert Flatten(NOTHING) == [EMPTY];
    assert p.tokens[0..] == p.tokens;
    LeadsStep(p, EMPTY, At(p, next, 0));
  }

  lemma {:induction false} EmptyValue(p: Parser)
    requires Inv(p) && p.tokens != [] && p.state == FlowMappingEmptyValueS
    ensures Leads(p, Flatten(NOTHING), At(p, FlowMappingKeyS, 0))
  {
    hide Leads, Inv;
    assert Flatten(NOTHING) == [EMPTY];
    assert p.tokens[0..] == p.tokens;
    LeadsStep(p, EMPTY, At(p, FlowMappingKeyS, 0));
  }

  /** An item of a flow sequence, or a key without KEY in a flow mapping, behind its comma. */
  lemma {:induction false} ItemOfFlow(form: Form, p: Parser, t: Node, scope: Scope)
    requires form == FlowSequence || form == FlowMapping
    requires Inv(p) && p.state == EntryState(form) && Writable(t, scope, false, false) && Means(p.directives, scope)
    requires Spells(p.tokens, [FlowEntryT] + NodeKinds(t)) && |NodeKinds(t)| + 1 < |p.tokens|
    requires EntryFollows(form, p.tokens[|NodeKinds(t)| + 1].kind)
    ensures Leads(p, Flatten(Meaning(t, scope)),
              At(p, if IsMapping(form) then FlowMappingEmptyValueS else p.state, |NodeKinds(t)| + 1))
    decreases t, 2
  {
    hide Begins, Leads, Inv, Step, Means, NodeKinds, Writable, Meaning, Flatten, ParseNode;
    SpellsBoth(p.tokens, [FlowEntryT], NodeKinds(t));
    var q := Skipped(p);
    SlotFirst(q.tokens, t, scope, false, false);
    StepFlowItem(p);
    Slot(p, q, if IsMapping(form) then FlowMappingEmptyValueS else p.state, false, false, t, scope);
  }

  lemma {:induction false} KeyOfFlow(p: Parser, t: Node, scope: Scope)
    requires Inv(p) && p.state == FlowMappingKeyS && WritableSlot(t, scope, false, false) && Means(p.directives, scope)
    requires Spells(p.tokens, [FlowEntryT, KeyT] + NodeKinds(t)) && |NodeKinds(t)| + 2 < |p.tokens|
    requires var k := p.tokens[|NodeKinds(t)| + 2].kind; k.ValueT? || k.FlowEntryT? || k.FlowMappingEndT?
    ensures Leads(p, Flatten(Meaning(t, scope)), At(p, FlowMappingValueS, |NodeKinds(t)| + 2))
    decreases t, 2
  {
    hide Begins, Leads, Inv, Step, Means, NodeKinds, Writable, Meaning, Flatten, ParseNode;
    SpellsBoth(p.tokens, [FlowEntryT, KeyT], NodeKinds(t));
    assert [FlowEntryT, KeyT][0] == FlowEntryT && [FlowEntryT, KeyT][1] == KeyT;
    var q := Skipped(Skipped(p));
    assert q.tokens == p.tokens[2..];
    StepFlowKey(p);
    if t.Missing? {
      NothingSpelled();
      Slot(p, q, FlowMappingValueS, false, false, t, scope);
    } else {
      SlotFirst(q.tokens, t, scope, false, false);
      Slot(p, q, FlowMappingValueS, false, false, t, scope);
    }
  }

  lemma {:induction false} ValueOfFlow(p: Parser, t: Node, next: State, scope: Scope)
    requires (p.state == FlowMappingValueS && next == FlowMappingKeyS)
      || (p.state == FlowSequenceEntryMappingValueS && next == FlowSequenceEntryMappingEndS)
    requires Inv(p) && WritableSlot(t, scope, false, false) && Means(p.directives, scope)
    requires Spells(p.tokens, [ValueT] + NodeKinds(t)) && |NodeKinds(t)| + 1 < |p.tokens|
    requires var k := p.tokens[|NodeKinds(t)| + 1].kind;
      k.FlowEntryT? || (if next == FlowMappingKeyS then k.FlowMappingEndT? else k.FlowSequenceEndT?)
    ensures Leads(p, Flatten(Meaning(t, scope)), At(p, next, |NodeKinds(t)| + 1))
    decreases t, 2
  {
    hide Begins, Leads, Inv, Step, Means, NodeKinds, Writable, Meaning, Flatten, ParseNode;
    SpellsBoth(p.tokens, [ValueT], NodeKinds(t));
    var q := Skipped(p);
    if next == FlowMappingKeyS {
      StepFlowValue(p);
    } else {
      StepPairValue(p);
    }
    if t.Missing? {
      NothingSpelled();
      Slot(p, q, next, false, false, t, scope);
    } else {
      SlotFirst(q.tokens, t, scope, false, false);
      Slot(p, q, next, false, false, t, scope);
    }
  }

  /** A mapping of one pair starts inside a flow sequence, behind the comma. */
  lemma {:induction false} PairStarts(p: Parser)
    requires Inv(p) && p.state == FlowSequenceEntryS && Spells(p.tokens, [FlowEntryT, KeyT])
    ensures Leads(p, [MappingStart(None, None, true, true)], At(p, FlowSequenceEntryMappingKeyS, 2))
  {
    hide Leads, Inv, Step, ParseFlowSequenceEntry;
    assert [FlowEntryT, KeyT][0] == FlowEntryT && [FlowEntryT, KeyT][1] == KeyT;
    EndDue(FlowSequence, p);
    StepGoesOn(p);
    PairEntered(p);
    LeadsStep(p, MappingStart(None, None, true, true), At(p, FlowSequenceEntryMappingKeyS, 2));
  }

  lemma {:induction false} PairEntered(p: Parser)
    requires p.states != [] && p.marks != []
    requires |p.tokens| >= 2 && p.tokens[0].kind == FlowEntryT && p.tokens[1].kind == KeyT
    ensures ParseFlowSequenceEntry(p, false) ==
      Emit(MappingStart(None, None, true, true), At(p, FlowSequenceEntryMappingKeyS, 2))
  {
    hide ParseNode;
    var q := Skipped(p);
    assert q.tokens[0] == p.tokens[1] && q.tokens[1..] == p.tokens[2..];
  }

  lemma {:induction false} PairKey(p: Parser, t: Node, scope: Scope)
    requires Inv(p) && p.state == FlowSequenceEntryMappingKeyS && Writable(t, scope, false, false)
    requires Means(p.directives, scope) && Spells(p.tokens, NodeKinds(t)) && |NodeKinds(t)| < |p.tokens|
    requires var k := p.tokens[|NodeKinds(t)|].kind; k.ValueT? || k.FlowEntryT? || k.FlowSequenceEndT?
    ensures Leads(p, Flatten(Meaning(t, scope)), At(p, FlowSequenceEntryMappingValueS, |NodeKinds(t)|))
    decreases t, 2
  {
    hide Begins, Leads, Inv, Step, Means, NodeKinds, Writable, Meaning, Flatten, ParseNode;
    SlotFirst(p.tokens, t, scope, false, false);
    StepPairKey(p);
    Slot(p, p, FlowSequenceEntryMappingValueS, false, false, t, scope);
  }

  lemma {:induction false} PairEnds(p: Parser)
    requires Inv(p) && p.state == FlowSequenceEntryMappingEndS && p.tokens != []
    ensures Leads(p, [MappingEnd], At(p, FlowSequenceEntryS, 0))
  {
    hide Leads, Inv;
    assert p.tokens[0..] == p.tokens;
    LeadsStep(p, MappingEnd, At(p, FlowSequenceEntryS, 0));
  }

  // ---------------------------------------------------------------- whole entries

  lemma {:induction false} DropTwice(tokens: seq<Token>, n: nat, m: nat)
    requires n + m <= |tokens|
    ensures tokens[n..][m..] == tokens[n + m..]
  {
  }

  /** What holds where an entry is due. */
  ghost predicate EntryDue(form: Form, e: Entry, p: Parser, scope: Scope) {
    && Inv(p) && p.state == EntryState(form) && Means(p.directives, scope) && WritableEntry(form, e, scope)
    && Spells(p.tokens, Signed(form, e)) && |Signed(form, e)| < |p.tokens|
    && EntryFollows(form, p.tokens[|Signed(form, e)|].kind)
  }

  ghost predicate EntryDone(form: Form, e: Entry, p: Parser, scope: Scope) {
    && |Signed(form, e)| <= |p.tokens|
    && Leads(p, FlattenItems(EntryMeaning(form, e, scope)), p.(tokens := p.tokens[|Signed(form, e)|..]))
  }

  lemma {:induction false} DueHas(form: Form, e: Entry, p: Parser, scope: Scope, ks: seq<Kind>)
    requires EntryDue(form, e, p, scope) && ks == Signed(form, e)
    ensures Inv(p) && p.state == EntryState(form) && Means(p.directives, scope) && WritableEntry(form, e, scope)
    ensures Spells(p.tokens, ks) && |ks| < |p.tokens| && EntryFollows(form, p.tokens[|ks|].kind)
  {
  }

  lemma {:induction false} DoneIs(form: Form, e: Entry, p: Parser, scope: Scope, events: seq<Event>, q: Parser)
    requires |Signed(form, e)| <= |p.tokens| && q == p.(tokens := p.tokens[|Signed(form, e)|..])
    requires events == FlattenItems(EntryMeaning(form, e, scope)) && Leads(p, events, q)
    ensures EntryDone(form, e, p, scope)
  {
  }

  lemma {:induction false} MeansTwo(form: Form, e: Entry, scope: Scope, key: Tree, value: Tree)
    requires EntryMeaning(form, e, scope) == [key, value]
    ensures FlattenItems(EntryMeaning(form, e, scope)) == Flatten(key) + Flatten(value)
  {
    FlattenTwo(key, value);
  }

  /** A token sequence in two parts, with one token more. */
  lemma {:induction false} SplitAt(tokens: seq<Token>, a: seq<Kind>, b: seq<Kind>)
    requires Spells(tokens, a + b) && |a + b| < |tokens| && b != []
    ensures Spells(tokens, a) && Spells(tokens[|a|..], b) && tokens[|a|].kind == b[0]
    ensures |b| < |tokens[|a|..]| && tokens[|a|..][|b|] == tokens[|a + b|]
    ensures tokens[|a|..][|b|..] == tokens[|a + b|..]
  {
    SpellsBoth(tokens, a, b);
    assert (a + b)[|a|] == b[0];
  }

  lemma {:induction false} SignedPair(form: Form, e: Entry, scope: Scope)
    requires !e.Item?
    ensures var a := (if IsFlow(form) then [FlowEntryT, KeyT] else [KeyT]) + NodeKinds(e.key);
      Signed(form, e) == if e.Pair? then a + ([ValueT] + NodeKinds(e.value)) else a
    ensures IsMapping(form) ==>
      EntryMeaning(form, e, scope) ==
        [Meaning(e.key, scope), if e.Pair? then Meaning(e.value, scope) else NOTHING]
  {
    hide NodeKinds, Meaning;
    var k := NodeKinds(e.key);
    assert [FlowEntryT] + ([KeyT] + k) == [FlowEntryT, KeyT] + k;
    if e.Pair? {
      var v := [ValueT] + NodeKinds(e.value);
      assert [FlowEntryT] + ([KeyT] + k + [ValueT] + NodeKinds(e.value)) == [FlowEntryT, KeyT] + k + v;
      assert [KeyT] + k + [ValueT] + NodeKinds(e.value) == [KeyT] + k + v;
    }
  }

  /** The tokens of a mapping's pair, and what it means. */
  lemma {:induction false} PairTold(form: Form, e: Entry, scope: Scope, a: seq<Kind>)
    requires e.Pair? && (form == BlockMapping || form == FlowMapping)
    requires a == (if form.FlowMapping? then [FlowEntryT, KeyT] else [KeyT]) + NodeKinds(e.key)
    ensures Signed(form, e) == a + ([ValueT] + NodeKinds(e.value))
    ensures FlattenItems(EntryMeaning(form, e, scope)) ==
      Flatten(Meaning(e.key, scope)) + Flatten(Meaning(e.value, scope))
  {
    hide NodeKinds, Meaning, Flatten, FlattenItems, Signed, EntryMeaning;
    SignedPair(form, e, scope);
    MeansTwo(form, e, scope, Meaning(e.key, scope), Meaning(e.value, scope));
  }

  lemma {:induction false} OneMeant(form: Form, e: Entry, scope: Scope)
    requires e.Item? && !IsMapping(form)
    ensures FlattenItems(EntryMeaning(form, e, scope)) == Flatten(Meaning(e.node, scope))
  {
    hide Flatten, Meaning;
    assert EntryMeaning(form, e, scope) == [Meaning(e.node, scope)];
    FlattenTwo(Meaning(e.node, scope), NOTHING);
  }

  lemma {:induction false} BlockItem(form: Form, e: Entry, p: Parser, scope: Scope)
    requires (form == BlockSequence || form == Indentless) && EntryDue(form, e, p, scope)
    ensures EntryDone(form, e, p, scope)
    decreases e, 0
  {
    hide Begins, Leads, Inv, Means, NodeKinds, Writable, Meaning, Flatten, FlattenItems, WritableSlot, Step, Spells,
      EntryDue, EntryDone, MayFollow, Signed, EntryMeaning, EntryFollows, EntryState, WritableEntry;
    EntryHas(form, e, p, scope);
    SignedItem(form, e, scope);
    var k := [BlockEntryT] + NodeKinds(e.node);
    DueHas(form, e, p, scope, k);
    ItemOfBlock(form, p, e.node, scope);
    DoneIs(form, e, p, scope, Flatten(Meaning(e.node, scope)), p.(tokens := p.tokens[|k|..]));
  }

  lemma {:induction false} SignedItem(form: Form, e: Entry, scope: Scope)
    requires e.Item? && (form == BlockSequence || form == Indentless)
    ensures Signed(form, e) == [BlockEntryT] + NodeKinds(e.node)
    ensures FlattenItems(EntryMeaning(form, e, scope)) == Flatten(Meaning(e.node, scope))
    ensures WritableEntry(form, e, scope) ==> WritableSlot(e.node, scope, true, false)
  {
    hide NodeKinds, Meaning, Flatten, FlattenItems, WritableSlot;
    OneMeant(form, e, scope);
  }

  /** What holds where a pair is due whose tokens come in two parts. */
  lemma {:induction false} PairHas(form: Form, e: Entry, p: Parser, scope: Scope, a: seq<Kind>, b: seq<Kind>)
    requires e.Pair? && EntryDue(form, e, p, scope) && Signed(form, e) == a + b && b != []
    ensures Inv(p) && p.state == EntryState(form) && Means(p.directives, scope)
    ensures |a| + |b| < |p.tokens| && Spells(p.tokens, a) && p.tokens[|a|].kind == b[0]
    ensures var rest := p.tokens[|a|..];
      Spells(rest, b) && |b| < |rest| && EntryFollows(form, rest[|b|].kind)
    ensures form.BlockMapping? ==> WritableSlot(e.key, scope, true, true) && WritableSlot(e.value, scope, true, true)
    ensures form.FlowMapping? ==> WritableSlot(e.key, scope, false, false) && WritableSlot(e.value, scope, false, false)
    ensures form.FlowSequence? ==> Writable(e.key, scope, false, false) && WritableSlot(e.value, scope, false, false)
    ensures var k := p.tokens[|a|..][|b|].kind;
      && (form.BlockMapping? ==> p.state == BlockMappingKeyS && (k.KeyT? || k.BlockEndT?))
      && (form.FlowMapping? ==> p.state == FlowMappingKeyS && (k.FlowEntryT? || k.FlowMappingEndT?))
  {
    hide Inv, Means, Spells, EntryDue, WritableSlot, Writable, Signed;
    DueHas(form, e, p, scope, a + b);
    SplitAt(p.tokens, a, b);
  }

  lemma {:induction false} PairDone(form: Form, e: Entry, p: Parser, scope: Scope, a: seq<Kind>, b: seq<Kind>, s: State,
      k: seq<Event>, v: seq<Event>)
    requires |a| + |b| <= |p.tokens| && Signed(form, e) == a + b && p.state == EntryState(form)
    requires FlattenItems(EntryMeaning(form, e, scope)) == k + v
    requires Leads(p, k, At(p, s, |a|)) && Leads(At(p, s, |a|), v, At(At(p, s, |a|), p.state, |b|))
    ensures EntryDone(form, e, p, scope)
  {
    hide Leads, Signed, EntryDone, EntryState, FlattenItems, EntryMeaning;
    var p1 := At(p, s, |a|);
    LeadsOn(p, k, p1, v, At(p1, p.state, |b|));
    DropTwice(p.tokens, |a|, |b|);
    DoneIs(form, e, p, scope, k + v, At(p1, p.state, |b|));
  }

  lemma {:induction false} BlockPair(e: Entry, p: Parser, scope: Scope)
    requires e.Pair? && EntryDue(BlockMapping, e, p, scope)
    ensures EntryDone(BlockMapping, e, p, scope)
    decreases e, 0
  {
    hide Begins, Leads, Inv, Means, NodeKinds, Writable, Meaning, Flatten, FlattenItems, WritableSlot, Step, Spells,
      EntryDue, EntryDone, MayFollow, Signed, EntryMeaning, WritableEntry, EntryFollows, IsFlow, IsMapping;
    var a, b := [KeyT] + NodeKinds(e.key), [ValueT] + NodeKinds(e.value);
    var k, v := Meaning(e.key, scope), Meaning(e.value, scope);
    PairTold(BlockMapping, e, scope, a);
    PairHas(BlockMapping, e, p, scope, a, b);
    KeyOfBlock(p, e.key, scope);
    var p1 := At(p, BlockMappingValueS, |a|);
    LeadsThere(p, Flatten(k), p1);
    ValueOfBlock(p1, e.value, scope);
    PairDone(BlockMapping, e, p, scope, a, b, BlockMappingValueS, Flatten(k), Flatten(v));
  }

  lemma {:induction false} BlockKeyOnly(e: Entry, p: Parser, scope: Scope)
    requires e.KeyOnly? && EntryDue(BlockMapping, e, p, scope)
    ensures EntryDone(BlockMapping, e, p, scope)
    decreases e, 0
  {
    hide Begins, Leads, Inv, Means, NodeKinds, Writable, Meaning, Flatten, FlattenItems, WritableSlot, Step, Spells,
      EntryDue, EntryDone, MayFollow, Signed, EntryMeaning;
    var a := [KeyT] + NodeKinds(e.key);
    SignedPair(BlockMapping, e, scope);
    DueHas(BlockMapping, e, p, scope, a);
    KeyOfBlock(p, e.key, scope);
    var p1 := At(p, BlockMappingValueS, |a|);
    LeadsThere(p, Flatten(Meaning(e.key, scope)), p1);
    NoValue(p1, BlockMappingKeyS);
    DropTwice(p.tokens, |a|, 0);
    LeadsOn(p, Flatten(Meaning(e.key, scope)), p1, Flatten(NOTHING), At(p1, BlockMappingKeyS, 0));
    MeansTwo(BlockMapping, e, scope, Meaning(e.key, scope), NOTHING);
    DoneIs(BlockMapping, e, p, scope, Flatten(Meaning(e.key, scope)) + Flatten(NOTHING), At(p1, BlockMappingKeyS, 0));
  }

  lemma {:induction false} FlowSequenceItem(e: Entry, p: Parser, scope: Scope)
    requires e.Item? && EntryDue(FlowSequence, e, p, scope)
    ensures EntryDone(FlowSequence, e, p, scope)
    decreases e, 0
  {
    hide Begins, Leads, Inv, Means, NodeKinds, Writable, Meaning, Flatten, FlattenItems, WritableSlot, Step, Spells,
      EntryDue, EntryDone, MayFollow;
    var k := [FlowEntryT] + NodeKinds(e.node);
    assert Signed(FlowSequence, e) == k;
    DueHas(FlowSequence, e, p, scope, k);
    ItemOfFlow(FlowSequence, p, e.node, scope);
    var events := Flatten(Meaning(e.node, scope));
    OneMeant(FlowSequence, e, scope);
    DoneIs(FlowSequence, e, p, scope, events, p.(tokens := p.tokens[|k|..]));
  }

  lemma {:induction false} FlowMappingItem(e: Entry, p: Parser, scope: Scope)
    requires e.Item? && EntryDue(FlowMapping, e, p, scope)
    ensures EntryDone(FlowMapping, e, p, scope)
    decreases e, 0
  {
    hide Begins, Leads, Inv, Means, NodeKinds, Writable, Meaning, Flatten, FlattenItems, WritableSlot, Step, Spells,
      EntryDue, EntryDone, MayFollow;
    var a := [FlowEntryT] + NodeKinds(e.node);
    assert Signed(FlowMapping, e) == a;
    DueHas(FlowMapping, e, p, scope, a);
    ItemOfFlow(FlowMapping, p, e.node, scope);
    var p1 := At(p, FlowMappingEmptyValueS, |a|);
    LeadsThere(p, Flatten(Meaning(e.node, scope)), p1);
    EmptyValue(p1);
    DropTwice(p.tokens, |a|, 0);
    LeadsOn(p, Flatten(Meaning(e.node, scope)), p1, Flatten(NOTHING), At(p1, FlowMappingKeyS, 0));
    assert EntryMeaning(FlowMapping, e, scope) == [Meaning(e.node, scope), NOTHING];
    MeansTwo(FlowMapping, e, scope, Meaning(e.node, scope), NOTHING);
    DoneIs(FlowMapping, e, p, scope, Flatten(Meaning(e.node, scope)) + Flatten(NOTHING), At(p1, FlowMappingKeyS, 0));
  }

  lemma {:induction false} FlowMappingPair(e: Entry, p: Parser, scope: Scope)
    requires e.Pair? && EntryDue(FlowMapping, e, p, scope)
    ensures EntryDone(FlowMapping, e, p, scope)
    decreases e, 0
  {
    hide Begins, Leads, Inv, Means, NodeKinds, Writable, Meaning, Flatten, FlattenItems, WritableSlot, Step, Spells,
      EntryDue, EntryDone, MayFollow, Signed, EntryMeaning, WritableEntry, EntryFollows, IsFlow, IsMapping;
    var a, b := [FlowEntryT, KeyT] + NodeKinds(e.key), [ValueT] + NodeKinds(e.value);
    var k, v := Meaning(e.key, scope), Meaning(e.value, scope);
    PairTold(FlowMapping, e, scope, a);
    PairHas(FlowMapping, e, p, scope, a, b);
    KeyOfFlow(p, e.key, scope);
    var p1 := At(p, FlowMappingValueS, |a|);
    LeadsThere(p, Flatten(k), p1);
    ValueOfFlow(p1, e.value, FlowMappingKeyS, scope);
    PairDone(FlowMapping, e, p, scope, a, b, FlowMappingValueS, Flatten(k), Flatten(v));
  }

  lemma {:induction false} FlowMappingKeyOnly(e: Entry, p: Parser, scope: Scope)
    requires e.KeyOnly? && EntryDue(FlowMapping, e, p, scope)
    ensures EntryDone(FlowMapping, e, p, scope)
    decreases e, 0
  {
    hide Begins, Leads, Inv, Means, NodeKinds, Writable, Meaning, Flatten, FlattenItems, WritableSlot, Step, Spells,
      EntryDue, EntryDone, MayFollow, Signed, EntryMeaning;
    var a := [FlowEntryT, KeyT] + NodeKinds(e.key);
    SignedPair(FlowMapping, e, scope);
    DueHas(FlowMapping, e, p, scope, a);
    KeyOfFlow(p, e.key, scope);
    var p1 := At(p, FlowMappingValueS, |a|);
    LeadsThere(p, Flatten(Meaning(e.key, scope)), p1);
    NoValue(p1, FlowMappingKeyS);
    DropTwice(p.tokens, |a|, 0);
    LeadsOn(p, Flatten(Meaning(e.key, scope)), p1, Flatten(NOTHING), At(p1, FlowMappingKeyS, 0));
    MeansTwo(FlowMapping, e, scope, Meaning(e.key, scope), NOTHING);
    DoneIs(FlowMapping, e, p, scope, Flatten(Meaning(e.key, scope)) + Flatten(NOTHING), At(p1, FlowMappingKeyS, 0));
  }

  /** The start and the key of a mapping of one pair. */
  lemma {:induction false} OnePairKey(e: Entry, p: Parser, scope: Scope)
    requires !e.Item? && Writable(e.key, scope, false, false)
    requires Inv(p) && p.state == FlowSequenceEntryS && Means(p.directives, scope)
    requires Spells(p.tokens, [FlowEntryT, KeyT] + NodeKinds(e.key)) && |NodeKinds(e.key)| + 2 < |p.tokens|
    requires var k := p.tokens[|NodeKinds(e.key)| + 2].kind; k.ValueT? || k.FlowEntryT? || k.FlowSequenceEndT?
    ensures Leads(p, [MappingStart(None, None, true, true)] + Flatten(Meaning(e.key, scope)),
              At(p, FlowSequenceEntryMappingValueS, |NodeKinds(e.key)| + 2))
    decreases e, 0
  {
    hide Begins, Leads, Inv, Means, NodeKinds, Writable, Meaning, Flatten, FlattenItems, WritableSlot, Step;
    var k := NodeKinds(e.key);
    SpellsBoth(p.tokens, [FlowEntryT, KeyT], k);
    PairStarts(p);
    var p1 := At(p, FlowSequenceEntryMappingKeyS, 2);
    LeadsThere(p, [MappingStart(None, None, true, true)], p1);
    PairKey(p1, e.key, scope);
    DropTwice(p.tokens, 2, |k|);
    LeadsOn(p, [MappingStart(None, None, true, true)], p1, Flatten(Meaning(e.key, scope)),
      At(p1, FlowSequenceEntryMappingValueS, |k|));
  }

  lemma {:induction false} PairMeant(e: Entry, scope: Scope)
    requires !e.Item?
    ensures FlattenItems(EntryMeaning(FlowSequence, e, scope)) ==
      [MappingStart(None, None, true, true)] + Flatten(Meaning(e.key, scope))
      + Flatten(if e.Pair? then Meaning(e.value, scope) else NOTHING) + [MappingEnd]
  {
    hide Meaning, Flatten, FlattenItems;
    FlattenPair(Meaning(e.key, scope), if e.Pair? then Meaning(e.value, scope) else NOTHING);
  }

  lemma {:induction false} FlattenPair(a: Tree, b: Tree)
    ensures FlattenItems([Collection(MappingStart(None, None, true, true), [a, b])])
      == [MappingStart(None, None, true, true)] + Flatten(a) + Flatten(b) + [MappingEnd]
  {
    var c := Collection(MappingStart(None, None, true, true), [a, b]);
    FlattenTwo(c, c);
    FlattenTwo(a, b);
    var s := [MappingStart(None, None, true, true)];
    assert s + (Flatten(a) + Flatten(b)) == s + Flatten(a) + Flatten(b);
  }

  /** The value and the end of a mapping of one pair. */
  lemma {:induction false} OnePairValue(e: Entry, p: Parser, scope: Scope)
    requires e.Pair? && WritableSlot(e.value, scope, false, false)
    requires Inv(p) && p.state == FlowSequenceEntryMappingValueS && Means(p.directives, scope)
    requires Spells(p.tokens, [ValueT] + NodeKinds(e.value)) && |NodeKinds(e.value)| + 1 < |p.tokens|
    requires EntryFollows(FlowSequence, p.tokens[|NodeKinds(e.value)| + 1].kind)
    ensures Leads(p, Flatten(Meaning(e.value, scope)) + [MappingEnd],
              At(p, FlowSequenceEntryS, |NodeKinds(e.value)| + 1))
    decreases e, 0
  {
    hide Begins, Leads, Inv, Means, NodeKinds, Writable, Meaning, Flatten, FlattenItems, WritableSlot, Step, Spells;
    ValueOfFlow(p, e.value, FlowSequenceEntryMappingEndS, scope);
    var n := |NodeKinds(e.value)| + 1;
    var p2 := At(p, FlowSequenceEntryMappingEndS, n);
    LeadsThere(p, Flatten(Meaning(e.value, scope)), p2);
    PairEnds(p2);
    DropTwice(p.tokens, n, 0);
    LeadsOn(p, Flatten(Meaning(e.value, scope)), p2, [MappingEnd], At(p2, FlowSequenceEntryS, 0));
  }

  lemma {:induction false} FlowSequencePair(e: Entry, p: Parser, scope: Scope)
    requires e.Pair? && EntryDue(FlowSequence, e, p, scope)
    ensures EntryDone(FlowSequence, e, p, scope)
    decreases e, 1
  {
    hide Begins, Leads, Inv, Means, NodeKinds, Writable, Meaning, Flatten, FlattenItems, WritableSlot, Step, Spells,
      EntryDue, EntryDone, MayFollow, Signed, EntryMeaning, WritableEntry;
    var a, b := [FlowEntryT, KeyT] + NodeKinds(e.key), [ValueT] + NodeKinds(e.value);
    SignedPair(FlowSequence, e, scope);
    PairHas(FlowSequence, e, p, scope, a, b);
    OnePairKey(e, p, scope);
    var start := [MappingStart(None, None, true, true)] + Flatten(Meaning(e.key, scope));
    var rest := Flatten(Meaning(e.value, scope)) + [MappingEnd];
    var p1 := At(p, FlowSequenceEntryMappingValueS, |a|);
    LeadsThere(p, start, p1);
    OnePairValue(e, p1, scope);
    PairMeant(e, scope);
    assert start + Flatten(Meaning(e.value, scope)) + [MappingEnd] == start + rest;
    PairDone(FlowSequence, e, p, scope, a, b, FlowSequenceEntryMappingValueS, start, rest);
  }

  lemma {:induction false} FlowSequenceKeyOnly(e: Entry, p: Parser, scope: Scope)
    requires e.KeyOnly? && EntryDue(FlowSequence, e, p, scope)
    ensures EntryDone(FlowSequence, e, p, scope)
    decreases e, 1
  {
    hide Begins, Leads, Inv, Means, NodeKinds, Writable, Meaning, Flatten, FlattenItems, WritableSlot, Step, Spells,
      EntryDue, EntryDone, MayFollow, Signed, EntryMeaning;
    var a := [FlowEntryT, KeyT] + NodeKinds(e.key);
    SignedPair(FlowSequence, e, scope);
    DueHas(FlowSequence, e, p, scope, a);
    OnePairKey(e, p, scope);
    var start := [MappingStart(None, None, true, true)] + Flatten(Meaning(e.key, scope));
    var p1 := At(p, FlowSequenceEntryMappingValueS, |a|);
    LeadsThere(p, start, p1);
    NoValue(p1, FlowSequenceEntryMappingEndS);
    DropTwice(p.tokens, |a|, 0);
    var p2 := At(p1, FlowSequenceEntryMappingEndS, 0);
    LeadsOn(p, start, p1, Flatten(NOTHING), p2);
    LeadsThere(p1, Flatten(NOTHING), p2);
    PairEnds(p2);
    LeadsOn(p, start + Flatten(NOTHING), p2, [MappingEnd], At(p2, FlowSequenceEntryS, 0));
    PairMeant(e, scope);
    DoneIs(FlowSequence, e, p, scope, start + Flatten(NOTHING) + [MappingEnd], At(p2, FlowSequenceEntryS, 0));
  }

  lemma {:induction false} EntryParses(form: Form, e: Entry, p: Parser, scope: Scope)
    requires EntryDue(form, e, p, scope)
    ensures EntryDone(form, e, p, scope)
    decreases e, 2
  {
    EntryHas(form, e, p, scope);
    hide EntryDue, EntryDone;
    match form
    case BlockSequence => BlockItem(form, e, p, scope);
    case Indentless => BlockItem(form, e, p, scope);
    case BlockMapping =>
      if e.Pair? {
        BlockPair(e, p, scope);
      } else {
        BlockKeyOnly(e, p, scope);
      }
    case FlowSequence =>
      if e.Item? {
        FlowSequenceItem(e, p, scope);
      } else if e.Pair? {
        FlowSequencePair(e, p, scope);
      } else {
        FlowSequenceKeyOnly(e, p, scope);
      }
    case FlowMapping =>
      if e.Item? {
        FlowMappingItem(e, p, scope);
      } else if e.Pair? {
        FlowMappingPair(e, p, scope);
      } else {
        FlowMappingKeyOnly(e, p, scope);
      }
  }

  lemma {:induction false} EntryHas(form: Form, e: Entry, p: Parser, scope: Scope)
    requires EntryDue(form, e, p, scope)
    ensures form.BlockSequence? || form.Indentless? ==> e.Item?
    ensures form.BlockMapping? ==> !e.Item?
  {
  }

  lemma {:induction false} LeadsThere(p: Parser, events: seq<Event>, q: Parser)
    requires Leads(p, events, q)
    ensures Inv(q)
  {
  }

  // ---------------------------------------------------------------- all the entries

  function SignedAll(form: Form, entries: seq<Entry>): seq<Kind> {
    if entries == [] then [] else SignedAll(form, entries[..|entries| - 1]) + Signed(form, entries[|entries| - 1])
  }

  /** With a comma before the first entry too. */
  lemma {:induction false} SignedEntries(form: Form, entries: seq<Entry>)
    ensures SignedAll(form, entries) ==
      (if IsFlow(form) && entries != [] then [FlowEntryT] else []) + EntriesKinds(form, entries)
  {
    hide EntryKinds, IsFlow;
    if entries != [] {
      var n := |entries| - 1;
      SignedEntries(form, entries[..n]);
      var comma := if IsFlow(form) then [FlowEntryT] else [];
      if n == 0 {
        assert entries[..0] == [];
        JoinKinds([], comma, EntryKinds(form, entries[n]));
      } else {
        JoinFour(comma, EntriesKinds(form, entries[..n]), comma, EntryKinds(form, entries[n]));
      }
    }
  }

  lemma {:induction false} JoinKinds(a: seq<Kind>, b: seq<Kind>, c: seq<Kind>)
    ensures a + (b + c) == a + b + c
    ensures [] + b + c == b + c
  {
  }

  lemma {:induction false} JoinFour(a: seq<Kind>, b: seq<Kind>, c: seq<Kind>, d: seq<Kind>)
    ensures a + b + (c + d) == a + (b + c + d)
  {
  }

  ghost predicate AllDue(form: Form, entries: seq<Entry>, p: Parser, scope: Scope) {
    && Inv(p) && p.state == EntryState(form) && Means(p.directives, scope)
    && (forall i :: 0 <= i < |entries| ==> WritableEntry(form, entries[i], scope))
    && Spells(p.tokens, SignedAll(form, entries)) && |SignedAll(form, entries)| < |p.tokens|
    && EntryFollows(form, p.tokens[|SignedAll(form, entries)|].kind)
  }

  lemma {:induction false} SignFirst(form: Form, e: Entry, scope: Scope)
    requires WritableEntry(form, e, scope)
    ensures Signed(form, e) != [] && EntryFollows(form, Signed(form, e)[0])
  {
    hide NodeKinds, Writable;
  }

  lemma {:induction false} EntriesParse(form: Form, entries: seq<Entry>, p: Parser, scope: Scope)
    requires AllDue(form, entries, p, scope)
    ensures |SignedAll(form, entries)| <= |p.tokens|
    ensures Leads(p, FlattenItems(Meanings(form, entries, scope)), p.(tokens := p.tokens[|SignedAll(form, entries)|..]))
    decreases entries, 0
  {
    hide Leads, Inv, Means, WritableEntry, Signed, EntryMeaning, EntryFollows, Flatten, Step, Spells;
    if entries == [] {
      LeadsSelf(p);
    } else {
      var n := |entries| - 1;
      var front, last := SignedAll(form, entries[..n]), Signed(form, entries[n]);
      SpellsBoth(p.tokens, front, last);
      SignFirst(form, entries[n], scope);
      assert (front + last)[|front|] == last[0];
      EntriesParse(form, entries[..n], p, scope);
      var p1 := p.(tokens := p.tokens[|front|..]);
      LeadsThere(p, FlattenItems(Meanings(form, entries[..n], scope)), p1);
      EntryParses(form, entries[n], p1, scope);
      DropTwice(p.tokens, |front|, |last|);
      LeadsOn(p, FlattenItems(Meanings(form, entries[..n], scope)), p1,
        FlattenItems(EntryMeaning(form, entries[n], scope)), p1.(tokens := p1.tokens[|last|..]));
      FlattenBoth(Meanings(form, entries[..n], scope), EntryMeaning(form, entries[n], scope));
    }
  }

  lemma {:induction false} FlattenBoth(a: seq<Tree>, b: seq<Tree>)
    ensures FlattenItems(a + b) == FlattenItems(a) + FlattenItems(b)
  {
    hide Flatten;
    if b == [] {
      assert a + b == a;
    } else {
      var n := |b| - 1;
      assert (a + b)[..|a + b| - 1] == a + b[..n];
      FlattenBoth(a, b[..n]);
    }
  }

  // ---------------------------------------------------------------- collections

  function FirstState(form: Form): State {
    match form
    case BlockSequence => BlockSequenceFirstEntryS
    case Indentless => IndentlessSequenceEntryS
    case BlockMapping => BlockMappingFirstKeyS
    case FlowSequence => FlowSequenceFirstEntryS
    case FlowMapping => FlowMappingFirstKeyS
  }

  /** Inside the collection that `p` begins: with its first token behind, and a comma before its
      first entry. */
  function Inside1(form: Form, p: Parser): Parser
    requires p.tokens != []
  {
    if form == Indentless then p
    else
      Parser((if IsFlow(form) then [Token(FlowEntryT, 0)] else []) + p.tokens[1..], EntryState(form), p.states,
             p.marks + [p.tokens[0].mark], p.directives)
  }

  lemma {:induction false} InsideKeeps(form: Form, p: Parser)
    requires Inv(p) && p.state == FirstState(form) && p.tokens != []
    ensures Inv(Inside1(form, p))
  {
    hide MarkCount;
  }

  /** Only what a node returns to matters, not the state it is parsed in. */
  lemma {:induction false} ContentStateless(p: Parser, s: State, block: bool, indentless: bool, anchor: Option<Name>,
      tag: Option<Name>)
    requires p.tokens != [] && p.states != []
    ensures ParseContent(p.(state := s), block, indentless, anchor, tag)
      == ParseContent(p, block, indentless, anchor, tag)
  {
  }

  lemma {:induction false} NodeStateless(p: Parser, q: Parser, s: State, block: bool, indentless: bool)
    requires q == p.(state := q.state)
    ensures ParseNode(Pushed(q, s), block, indentless) == ParseNode(Pushed(p, s), block, indentless)
  {
    hide ParseContent, ResolveTag, ReadProperties;
    var p', q' := Pushed(p, s), Pushed(q, s);
    if p.tokens != [] && !Kind0(p.tokens).AliasT? {
      var props := ReadProperties(p.tokens);
      if props.Some? {
        var r := p'.(tokens := props.value.rest);
        var t := props.value.tag;
        var tag := if t.None? then None else ResolveTag(p.directives, t.value.0, t.value.1);
        ContentStateless(r, q.state, block, indentless, props.value.anchor, tag);
        assert q'.(tokens := props.value.rest) == r.(state := q.state);
      }
    }
  }

  // Inside, the next step is the same.

  lemma {:induction false} StepEnters(p: Parser)
    requires Inv(p) && p.tokens != [] && IsFirst(p.state)
    ensures p.states != []
    ensures p.state.BlockSequenceFirstEntryS? ==> Step(p) == ParseBlockSequenceEntry(p, true)
    ensures p.state.BlockMappingFirstKeyS? ==> Step(p) == ParseBlockMappingKey(p, true)
    ensures p.state.FlowSequenceFirstEntryS? ==> Step(p) == ParseFlowSequenceEntry(p, true)
    ensures p.state.FlowMappingFirstKeyS? ==> Step(p) == ParseFlowMappingKey(p, true)
  {
    hide MarkCount, ParseBlockSequenceEntry, ParseBlockMappingKey, ParseFlowSequenceEntry, ParseFlowMappingKey;
  }

  lemma {:induction false} StepGoesOn(p: Parser)
    requires Inv(p) && p.marks != [] && p.states != []
    ensures p.state.BlockSequenceEntryS? ==> Step(p) == ParseBlockSequenceEntry(p, false)
    ensures p.state.BlockMappingKeyS? ==> Step(p) == ParseBlockMappingKey(p, false)
    ensures p.state.FlowSequenceEntryS? ==> Step(p) == ParseFlowSequenceEntry(p, false)
    ensures p.state.FlowMappingKeyS? ==> Step(p) == ParseFlowMappingKey(p, false)
  {
    hide MarkCount, ParseBlockSequenceEntry, ParseBlockMappingKey, ParseFlowSequenceEntry, ParseFlowMappingKey;
  }

  lemma {:induction false} InsideBlockSequence(p: Parser)
    requires Inv(p) && p.state == BlockSequenceFirstEntryS && p.tokens != []
    ensures Inv(Inside1(BlockSequence, p)) && Step(Inside1(BlockSequence, p)) == Step(p)
  {
    hide Step, Inv, ParseNode;
    InsideKeeps(BlockSequence, p);
    var p1, p2 := Inside1(BlockSequence, p), Entered(p, true);
    assert p1.tokens == p2.tokens;
    StepEnters(p);
    StepGoesOn(p1);
    if p2.tokens != [] {
      NodeStateless(Skipped(p2), Skipped(p1), BlockSequenceEntryS, true, false);
    }
  }

  lemma {:induction false} InsideBlockMapping(p: Parser)
    requires Inv(p) && p.state == BlockMappingFirstKeyS && p.tokens != []
    ensures Inv(Inside1(BlockMapping, p)) && Step(Inside1(BlockMapping, p)) == Step(p)
  {
    hide Step, Inv, ParseNode;
    InsideKeeps(BlockMapping, p);
    var p1, p2 := Inside1(BlockMapping, p), Entered(p, true);
    assert p1.tokens == p2.tokens;
    StepEnters(p);
    StepGoesOn(p1);
    if p2.tokens != [] {
      NodeStateless(Skipped(p2), Skipped(p1), BlockMappingValueS, true, true);
    }
  }

  lemma {:induction false} InsideFlowSequence(p: Parser)
    requires Inv(p) && p.state == FlowSequenceFirstEntryS && p.tokens != []
    ensures Inv(Inside1(FlowSequence, p)) && Step(Inside1(FlowSequence, p)) == Step(p)
  {
    hide Step, Inv, ParseNode;
    InsideKeeps(FlowSequence, p);
    var p1, p2 := Inside1(FlowSequence, p), Entered(p, true);
    assert p1.tokens[1..] == p2.tokens && p1.tokens[0].kind == FlowEntryT;
    StepEnters(p);
    StepGoesOn(p1);
    if p2.tokens != [] {
      NodeStateless(p2, Skipped(p1), FlowSequenceEntryS, false, false);
    }
  }

  lemma {:induction false} InsideFlowMapping(p: Parser)
    requires Inv(p) && p.state == FlowMappingFirstKeyS && p.tokens != []
    ensures Inv(Inside1(FlowMapping, p)) && Step(Inside1(FlowMapping, p)) == Step(p)
  {
    hide Step, Inv, ParseNode;
    InsideKeeps(FlowMapping, p);
    var p1, p2 := Inside1(FlowMapping, p), Entered(p, true);
    assert p1.tokens[1..] == p2.tokens && p1.tokens[0].kind == FlowEntryT;
    StepEnters(p);
    StepGoesOn(p1);
    if p2.tokens != [] {
      NodeStateless(p2, Skipped(p1), FlowMappingEmptyValueS, false, false);
      NodeStateless(Skipped(p2), Skipped(Skipped(p1)), FlowMappingValueS, false, false);
    }
  }

  lemma {:induction false} InsideAlike(form: Form, p: Parser, events: seq<Event>, r: Parser)
    requires Inv(p) && p.state == FirstState(form) && p.tokens != [] && events != []
    requires Inv(Inside1(form, p)) ==> Leads(Inside1(form, p), events, r)
    ensures Leads(p, events, r)
  {
    if form == Indentless {
      assert Inside1(form, p) == p;
    } else {
      hide Step, Inv, Leads;
      match form {
        case BlockSequence => InsideBlockSequence(p);
        case BlockMapping => InsideBlockMapping(p);
        case FlowSequence => InsideFlowSequence(p);
        case FlowMapping => InsideFlowMapping(p);
      }
      LeadsAlike(p, Inside1(form, p), events, r);
    }
  }

  /** What comes behind the entries: maybe a comma, and the closing token. */
  function Tail(form: Form, comma: bool): seq<Kind> {
    (if comma && IsFlow(form) then [FlowEntryT] else []) + Closing(form)
  }

  function EndEvent(form: Form): Event {
    if IsMapping(form) then MappingEnd else SequenceEnd
  }

  /** Where the collection that was entered from `q` ends. */
  function Ended(form: Form, q: Parser, n: nat): Parser
    requires q.states != [] && q.marks != [] && n <= |q.tokens|
  {
    Unmarked(Popped(q)).(tokens := q.tokens[n..])
  }

  lemma {:induction false} StepEnds(form: Form, p: Parser, comma: bool)
    requires Inv(p) && p.state == EntryState(form) && form != Indentless && Spells(p.tokens, Tail(form, comma))
    ensures p.states != [] && p.marks != []
    ensures Step(p) == Emit(EndEvent(form), Ended(form, p, |Tail(form, comma)|))
  {
    hide Step, Inv, ParseNode, ParseBlockSequenceEntry, ParseBlockMappingKey, ParseFlowSequenceEntry,
      ParseFlowMappingKey;
    EndDue(form, p);
    StepGoesOn(p);
    if IsFlow(form) && comma {
      assert Tail(form, comma) == [FlowEntryT, Closing(form)[0]];
      assert Tail(form, comma)[0] == FlowEntryT && Tail(form, comma)[1] == Closing(form)[0];
      CommaEnds(form, p);
    } else {
      assert [] + Closing(form) == Closing(form) && Tail(form, comma)[0] == Closing(form)[0];
      OneEnds(form, p);
    }
  }

  lemma {:induction false} OneEnds(form: Form, p: Parser)
    requires form != Indentless && p.states != [] && p.marks != []
    requires p.tokens != [] && p.tokens[0].kind == Closing(form)[0]
    ensures var out := Emit(EndEvent(form), Ended(form, p, 1));
      && (form == BlockSequence ==> ParseBlockSequenceEntry(p, false) == out)
      && (form == BlockMapping ==> ParseBlockMappingKey(p, false) == out)
      && (form == FlowSequence ==> ParseFlowSequenceEntry(p, false) == out)
      && (form == FlowMapping ==> ParseFlowMappingKey(p, false) == out)
  {
    hide ParseNode;
  }

  lemma {:induction false} CommaEnds(form: Form, p: Parser)
    requires IsFlow(form) && p.states != [] && p.marks != []
    requires |p.tokens| >= 2 && p.tokens[0].kind == FlowEntryT && p.tokens[1].kind == Closing(form)[0]
    ensures var out := Emit(EndEvent(form), Ended(form, p, 2));
      && (form == FlowSequence ==> ParseFlowSequenceEntry(p, false) == out)
      && (form == FlowMapping ==> ParseFlowMappingKey(p, false) == out)
  {
    hide ParseNode;
    var q := Skipped(p);
    assert q.tokens[0] == p.tokens[1] && q.tokens[1..] == p.tokens[2..];
    assert Skipped(Unmarked(Popped(q))) == Ended(form, p, 2);
  }

  lemma {:induction false} EndDue(form: Form, p: Parser)
    requires Inv(p) && p.state == EntryState(form) && form != Indentless
    ensures p.states != [] && p.marks != []
  {
    hide MarkCount;
  }

  lemma {:induction false} IndentlessEnds(p: Parser)
    requires Inv(p) && p.state == IndentlessSequenceEntryS && p.tokens != [] && !p.tokens[0].kind.BlockEntryT?
    ensures p.states != [] && Leads(p, [SequenceEnd], Popped(p))
  {
    hide Leads;
    LeadsStep(p, SequenceEnd, Popped(p));
  }

  /** The tokens of a collection behind its properties. */
  function GroupKinds(form: Form, entries: seq<Entry>, trailing: bool): seq<Kind> {
    Opening(form) + EntriesKinds(form, entries) + (if trailing then [FlowEntryT] else []) + Closing(form)
  }

  lemma {:induction false} GroupSpelled(form: Form, entries: seq<Entry>, trailing: bool)
    requires (trailing ==> IsFlow(form) && entries != []) && form != Indentless
    ensures var comma := trailing || entries == [];
      (if IsFlow(form) then [FlowEntryT] else []) + GroupKinds(form, entries, trailing)[1..]
      == SignedAll(form, entries) + Tail(form, comma)
  {
    hide EntriesKinds, SignedAll;
    SignedEntries(form, entries);
    if entries == [] {
      NoEntries(form);
    }
    var o, e, t, c := Opening(form), EntriesKinds(form, entries), if trailing then [FlowEntryT] else [], Closing(form);
    assert o + e + t + c == o + (e + t + c);
    assert (o + (e + t + c))[1..] == e + t + c;
  }

  lemma {:induction false} NoEntries(form: Form)
    ensures EntriesKinds(form, []) == [] && SignedAll(form, []) == []
  {
  }

  lemma {:induction false} SpellsInside(form: Form, p: Parser, ks: seq<Kind>)
    requires form != Indentless && ks != [] && Spells(p.tokens, ks)
    ensures p.tokens != []
    ensures var ks' := (if IsFlow(form) then [FlowEntryT] else []) + ks[1..];
      Spells(Inside1(form, p).tokens, ks') && Inside1(form, p).tokens[|ks'|..] == p.tokens[|ks|..]
  {
    var ks' := (if IsFlow(form) then [FlowEntryT] else []) + ks[1..];
    var p1 := Inside1(form, p);
    var d := if IsFlow(form) then 0 else 1;
    forall i | 0 <= i < |ks'| ensures p1.tokens[i].kind == ks'[i] {
      assert i + d > 0 ==> ks'[i] == ks[i + d] && p1.tokens[i] == p.tokens[i + d];
    }
  }

  /** Inside a collection with its own tokens, up to its end. */
  lemma {:induction false} GroupInside(form: Form, entries: seq<Entry>, comma: bool, p: Parser, scope: Scope)
    requires form != Indentless && Inv(p) && p.state == EntryState(form) && Means(p.directives, scope)
    requires forall i :: 0 <= i < |entries| ==> WritableEntry(form, entries[i], scope)
    requires Spells(p.tokens, SignedAll(form, entries) + Tail(form, comma))
    ensures p.states != [] && p.marks != []
    ensures Leads(p, FlattenItems(Meanings(form, entries, scope)) + [EndEvent(form)],
              Ended(form, p, |SignedAll(form, entries)| + |Tail(form, comma)|))
    decreases entries, 1
  {
    hide Inv, Leads, Means, WritableEntry, Step, SignedAll, Meanings, FlattenItems, Spells, Tail, EntryFollows,
      EndEvent, EntryState;
    EndDue(form, p);
    var signs, tail := SignedAll(form, entries), Tail(form, comma);
    TailFollows(form, comma);
    SpellsBoth(p.tokens, signs, tail);
    FirstOf(p.tokens, |signs|, tail);
    EntriesParse(form, entries, p, scope);
    var events := FlattenItems(Meanings(form, entries, scope));
    var p2 := p.(tokens := p.tokens[|signs|..]);
    LeadsThere(p, events, p2);
    StepEnds(form, p2, comma);
    LeadsStep(p2, EndEvent(form), Ended(form, p2, |tail|));
    LeadsOn(p, events, p2, [EndEvent(form)], Ended(form, p2, |tail|));
    DropTwice(p.tokens, |signs|, |tail|);
  }

  lemma {:induction false} TailFollows(form: Form, comma: bool)
    requires form != Indentless
    ensures Tail(form, comma) != [] && EntryFollows(form, Tail(form, comma)[0])
  {
  }

  /** A collection with its own tokens, from where its first one is due to its end. */
  lemma {:induction false} GroupParses(form: Form, entries: seq<Entry>, trailing: bool, p: Parser, scope: Scope)
    requires Inv(p) && p.state == FirstState(form) && form != Indentless && Means(p.directives, scope)
    requires (trailing ==> IsFlow(form) && entries != [])
    requires forall i :: 0 <= i < |entries| ==> WritableEntry(form, entries[i], scope)
    requires Spells(p.tokens, GroupKinds(form, entries, trailing))
    ensures p.states != []
    ensures Leads(p, FlattenItems(Meanings(form, entries, scope)) + [EndEvent(form)],
              Behind(p, |GroupKinds(form, entries, trailing)|))
    decreases entries, 2
  {
    hide Inv, Leads, Means, WritableEntry, Step, EntriesKinds, SignedAll, Meanings, FlattenItems, GroupKinds, Tail,
      Spells;
    var ks, comma := GroupKinds(form, entries, trailing), trailing || entries == [];
    GroupSpelled(form, entries, trailing);
    SomeKinds(form, entries, trailing);
    SpellsInside(form, p, ks);
    InsideKeeps(form, p);
    GroupInside(form, entries, comma, Inside1(form, p), scope);
    var r := Ended(form, Inside1(form, p), |SignedAll(form, entries)| + |Tail(form, comma)|);
    assert r == Behind(p, |ks|);
    InsideAlike(form, p, FlattenItems(Meanings(form, entries, scope)) + [EndEvent(form)], r);
  }

  lemma {:induction false} SomeKinds(form: Form, entries: seq<Entry>, trailing: bool)
    requires form != Indentless
    ensures GroupKinds(form, entries, trailing) != []
  {
  }

  lemma {:induction false} IndentlessParses(entries: seq<Entry>, p: Parser, scope: Scope)
    requires Inv(p) && p.state == IndentlessSequenceEntryS && Means(p.directives, scope)
    requires forall i :: 0 <= i < |entries| ==> WritableEntry(Indentless, entries[i], scope)
    requires Spells(p.tokens, EntriesKinds(Indentless, entries))
    requires Followed(p.tokens, |EntriesKinds(Indentless, entries)|, true)
    ensures p.states != []
    ensures Leads(p, FlattenItems(Meanings(Indentless, entries, scope)) + [SequenceEnd],
              Behind(p, |EntriesKinds(Indentless, entries)|))
    decreases entries, 1
  {
    hide Inv, Leads, Means, WritableEntry, Step, EntriesKinds, SignedAll, Meanings, FlattenItems;
    SignedEntries(Indentless, entries);
    var ks := EntriesKinds(Indentless, entries);
    assert [] + ks == ks;
    EntriesParse(Indentless, entries, p, scope);
    var events := FlattenItems(Meanings(Indentless, entries, scope));
    var p2 := p.(tokens := p.tokens[|ks|..]);
    LeadsThere(p, events, p2);
    IndentlessEnds(p2);
    LeadsOn(p, events, p2, [SequenceEnd], Popped(p2));
  }

  /** The start event of a collection. */
  function StartEvent(form: Form, props: seq<Kind>, scope: Scope): Event {
    var anchor, tag := AnchorOf(props), TagOf(props, scope);
    if IsMapping(form) then MappingStart(anchor, tag, Untagged(tag), IsFlow(form))
    else SequenceStart(anchor, tag, Untagged(tag), IsFlow(form))
  }

  lemma {:induction false} GroupStarts(form: Form, q: Parser, block: bool, indentless: bool, props: seq<Kind>,
      scope: Scope)
    requires q.states != [] && Means(q.directives, scope) && WritableProps(props, scope)
    requires IsFlow(form) || block
    requires form == Indentless ==> indentless
    requires Spells(q.tokens, props) && |props| < |q.tokens|
    requires q.tokens[|props|].kind == if form == Indentless then BlockEntryT else Opening(form)[0]
    ensures ParseNode(q, block, indentless) ==
      Emit(StartEvent(form, props, scope), At(q, FirstState(form), |props|))
  {
    hide ParseNode, Means, TagOf, AnchorOf;
    NodeRead(q, block, indentless, props, scope);
  }

  lemma {:induction false} GroupMeans(form: Form, props: seq<Kind>, entries: seq<Entry>, trailing: bool, scope: Scope)
    ensures Flatten(Meaning(Group(form, props, entries, trailing), scope)) ==
      [StartEvent(form, props, scope)] + FlattenItems(Meanings(form, entries, scope)) + [EndEvent(form)]
    ensures NodeKinds(Group(form, props, entries, trailing)) == props + GroupKinds(form, entries, trailing)
  {
    hide Meanings, EntriesKinds, FlattenItems, TagOf, AnchorOf;
    var o, e, t, c := Opening(form), EntriesKinds(form, entries), if trailing then [FlowEntryT] else [], Closing(form);
    assert props + o + e + t + c == props + (o + e + t + c);
  }

  lemma {:induction false} GroupFirst(form: Form, entries: seq<Entry>, trailing: bool, scope: Scope)
    requires form == Indentless ==> entries != []
    requires forall i :: 0 <= i < |entries| ==> WritableEntry(form, entries[i], scope)
    ensures GroupKinds(form, entries, trailing) != []
    ensures GroupKinds(form, entries, trailing)[0] == if form == Indentless then BlockEntryT else Opening(form)[0]
  {
    if form == Indentless {
      IndentlessFirst(entries, scope);
    }
    hide EntriesKinds, WritableEntry;
  }

  lemma {:induction false} GroupNodeParses(t: Node, q: Parser, block: bool, indentless: bool, scope: Scope)
    requires q.states != [] && t.Group? && Writable(t, scope, block, indentless) && Means(q.directives, scope)
    requires Spells(q.tokens, NodeKinds(t)) && Followed(q.tokens, |NodeKinds(t)|, indentless)
    ensures Parses(q, block, indentless, Meaning(t, scope), Behind(q, |NodeKinds(t)|))
    decreases t, 0, 0
  {
    hide Inv, Leads, Means, NodeKinds, Meaning, Flatten, FlattenItems, Meanings, ParseNode, GroupKinds, WritableEntry,
      StartEvent, EndEvent, WritableProps, Writable, Step, Spells, Followed, Parses, FirstState;
    var form, props, entries, trailing := t.form, t.props, t.entries, t.trailing;
    GroupHas(t, scope, block, indentless);
    GroupMeans(form, props, entries, trailing, scope);
    var ks := GroupKinds(form, entries, trailing);
    SpellsBoth(q.tokens, props, ks);
    GroupFirst(form, entries, trailing, scope);
    FirstOf(q.tokens, |props|, ks);
    GroupStarts(form, q, block, indentless, props, scope);
    var p0 := At(q, FirstState(form), |props|);
    DropTwice(q.tokens, |props|, |ks|);
    FollowedBehind(q.tokens, |props|, |ks|, indentless);
    var rest := FlattenItems(Meanings(form, entries, scope)) + [EndEvent(form)];
    if Inv(p0) {
      GroupRest(form, entries, trailing, p0, indentless, scope);
    }
    StartsParses(q, block, indentless, Meaning(t, scope), StartEvent(form, props, scope), p0,
      FlattenItems(Meanings(form, entries, scope)), EndEvent(form), Behind(q, |NodeKinds(t)|));
  }

  lemma {:induction false} GroupHas(t: Node, scope: Scope, block: bool, indentless: bool)
    requires t.Group? && Writable(t, scope, block, indentless)
    ensures WritableProps(t.props, scope) && (IsFlow(t.form) || block)
    ensures t.form.Indentless? ==> indentless && t.entries != [] && !t.trailing
    ensures t.trailing ==> IsFlow(t.form) && t.entries != []
    ensures forall i :: 0 <= i < |t.entries| ==> WritableEntry(t.form, t.entries[i], scope)
  {
    hide WritableProps, WritableEntry;
  }

  lemma {:induction false} FirstOf(tokens: seq<Token>, n: nat, ks: seq<Kind>)
    requires n <= |tokens| && Spells(tokens[n..], ks) && ks != []
    ensures n < |tokens| && tokens[n].kind == ks[0]
  {
    assert tokens[n..][0] == tokens[n];
  }

  lemma {:induction false} FollowedBehind(tokens: seq<Token>, n: nat, m: nat, indentless: bool)
    requires n + m <= |tokens| && Followed(tokens, n + m, indentless)
    ensures Followed(tokens[n..], m, indentless)
  {
  }

  lemma {:induction false} GroupRest(form: Form, entries: seq<Entry>, trailing: bool, p: Parser, indentless: bool,
      scope: Scope)
    requires Inv(p) && p.state == FirstState(form) && Means(p.directives, scope)
    requires (form.Indentless? ==> indentless && !trailing) && (trailing ==> IsFlow(form) && entries != [])
    requires forall i :: 0 <= i < |entries| ==> WritableEntry(form, entries[i], scope)
    requires var ks := GroupKinds(form, entries, trailing);
      Spells(p.tokens, ks) && Followed(p.tokens, |ks|, indentless)
    ensures p.states != []
    ensures Leads(p, FlattenItems(Meanings(form, entries, scope)) + [EndEvent(form)],
              Behind(p, |GroupKinds(form, entries, trailing)|))
    decreases entries, 3
  {
    hide Inv, Leads, Means, WritableEntry, Meanings, FlattenItems, GroupKinds, Spells, Followed;
    if form == Indentless {
      IndentlessKinds(entries, trailing);
      IndentlessParses(entries, p, scope);
    } else {
      GroupParses(form, entries, trailing, p, scope);
    }
  }

  /** A node that starts with an event and goes on with the others. */
  lemma {:induction false} StartsParses(q: Parser, block: bool, indentless: bool, t: Tree, e: Event, p: Parser,
      inner: seq<Event>, end: Event, after: Parser)
    requires q.states != [] && ParseNode(q, block, indentless) == Emit(e, p)
    requires Flatten(t) == [e] + inner + [end] && (Inv(p) ==> Leads(p, inner + [end], after))
    ensures Parses(q, block, indentless, t, after)
  {
    hide ParseNode, Inv, Leads, Flatten;
    assert ([e] + inner + [end])[1..] == inner + [end];
  }

  lemma {:induction false} IndentlessKinds(entries: seq<Entry>, trailing: bool)
    requires !trailing
    ensures GroupKinds(Indentless, entries, trailing) == EntriesKinds(Indentless, entries)
  {
    hide EntriesKinds;
  }

  /** The heart of it: whatever node is written, in block or flow form, parsing it emits just
      the events it means and comes back behind it. */
  lemma {:induction false} NodeParses(t: Node, q: Parser, block: bool, indentless: bool, scope: Scope)
    requires q.states != [] && Writable(t, scope, block, indentless) && Means(q.directives, scope)
    requires Spells(q.tokens, NodeKinds(t)) && Followed(q.tokens, |NodeKinds(t)|, indentless)
    ensures Parses(q, block, indentless, Meaning(t, scope), Behind(q, |NodeKinds(t)|))
    decreases t, 0, 1
  {
    hide Parses, Means;
    match t
    case AliasTo(name) => AliasParses(q, block, indentless, name);
    case Word(props, value, style) => WordParses(q, block, indentless, props, value, style, scope);
    case Blank(props) => BlankParses(q, block, indentless, props, scope);
    case Group(_, _, _, _) => GroupNodeParses(t, q, block, indentless, scope);
  }

  // ---------------------------------------------------------------- directives

  predicate Apart(tags: seq<TagDirective>) {
    forall i, j :: 0 <= i < j < |tags| ==> tags[i].handle != tags[j].handle
  }

  predicate Declares(tags: seq<TagDirective>, h: Name) {
    exists i :: 0 <= i < |tags| && tags[i].handle == h
  }

  lemma {:induction false} FindMore(ds: seq<TagDirective>, d: TagDirective, h: Name)
    ensures FindDirective(ds + [d], h) ==
      if FindDirective(ds, h) < |ds| then FindDirective(ds, h) else if d.handle == h then |ds| else |ds| + 1
  {
    if ds == [] {
      assert (ds + [d])[1..] == [];
    } else if ds[0].handle != h {
      assert (ds + [d])[1..] == ds[1..] + [d];
      FindMore(ds[1..], d, h);
    }
  }

  lemma {:induction false} FoundIff(ds: seq<TagDirective>, h: Name)
    ensures FindDirective(ds, h) < |ds| <==> Declares(ds, h)
  {
    hide FindDirective;
    var k := FindDirective(ds, h);
    if k < |ds| {
      assert ds[k].handle == h;
    }
  }

  /** A default directive, if its handle is not declared yet. */
  lemma {:induction false} DefaultFound(ds: seq<TagDirective>, d: TagDirective, h: Name)
    ensures AppendDirective(ds, d, true).Some?
    ensures var a := AppendDirective(ds, d, true).value; forall prefix :: Found(a, h, prefix) <==>
      if Declares(ds, h) then Found(ds, h, prefix) else d.handle == h && d.prefix == prefix
  {
    FoundIff(ds, h);
    FoundIff(ds, d.handle);
    FindMore(ds, d, h);
    hide FindDirective, Declares;
  }

  lemma {:induction false} DeclaresMore(ds: seq<TagDirective>, d: TagDirective, h: Name)
    ensures AppendDirective(ds, d, true).Some?
    ensures Declares(AppendDirective(ds, d, true).value, h) <==> Declares(ds, h) || d.handle == h
  {
    FoundIff(ds, d.handle);
    if FindDirective(ds, d.handle) == |ds| {
      var a := ds + [d];
      assert a[|ds|] == d;
      if Declares(ds, h) {
        var i :| 0 <= i < |ds| && ds[i].handle == h;
        assert a[i].handle == h;
      }
    }
  }

  /** What a handle is in scope for: the directive that declares it, or a default one. */
  lemma {:induction false} ScopeFinds(tags: seq<TagDirective>, h: Name)
    requires Apart(tags)
    ensures Declares(tags, h) ==> h in ScopeOf(tags) && Found(tags, h, ScopeOf(tags)[h])
    ensures !Declares(tags, h) ==>
      && (h in ScopeOf(tags) <==> h == Ascii("!") || h == Ascii("!!"))
      && (h == Ascii("!") ==> ScopeOf(tags)[h] == Ascii("!"))
      && (h == Ascii("!!") ==> ScopeOf(tags)[h] == Ascii("tag:yaml.org,2002:"))
  {
    hide Ascii, FindDirective;
    Handles();
    if tags != [] {
      var n := |tags| - 1;
      var front, d := tags[..n], tags[n];
      ScopeFinds(front, h);
      FindMore(front, d, h);
      assert tags == front + [d];
      FoundIff(front, h);
      FoundIff(tags, h);
      if Declares(front, h) {
        var i :| 0 <= i < n && front[i].handle == h;
        assert tags[i].handle == h;
      }
    }
  }

  lemma {:induction false} Handles()
    ensures Ascii("!") != Ascii("!!")
    ensures BANG == Ascii("!") && BANG + BANG == Ascii("!!") && YAML_PREFIX == Ascii("tag:yaml.org,2002:")
  {
  }

  lemma {:induction false} DirectivesMean(tags: seq<TagDirective>)
    requires Apart(tags)
    ensures Means(WithDefaults(tags), ScopeOf(tags))
  {
    hide Ascii, Found, AppendDirective, Declares, Apart;
    var scope := ScopeOf(tags);
    var one := TagDirective(BANG, BANG);
    Handles();
    DeclaresMore(tags, one, []);
    var a := AppendDirective(tags, one, true).value;
    var two := TagDirective(BANG + BANG, YAML_PREFIX);
    DeclaresMore(a, two, []);
    forall h | h in scope ensures Found(WithDefaults(tags), h, scope[h]) {
      ScopeFinds(tags, h);
      DefaultFound(tags, one, h);
      DeclaresMore(tags, one, h);
      DefaultFound(a, two, h);
    }
  }

  lemma {:induction false} TagsInFrom(heads: seq<Kind>, d: TagDirective)
    requires d in TagsIn(heads)
    ensures TagDirectiveT(d) in heads
  {
    if heads[0] != TagDirectiveT(d) {
      TagsInFrom(heads[1..], d);
    }
  }

  lemma {:induction false} NoVersion(heads: seq<Kind>)
    requires forall i :: 0 <= i < |heads| ==> !heads[i].VersionT?
    ensures VersionIn(heads) == None
  {
    if heads != [] {
      NoVersion(heads[1..]);
    }
  }

  /** The first directive is not repeated. */
  lemma {:induction false} HeadsApart(heads: seq<Kind>)
    requires WritableHeads(heads) && heads != []
    ensures WritableHeads(heads[1..])
    ensures heads[0].VersionT? ==> VersionIn(heads[1..]) == None
    ensures heads[0].TagDirectiveT? ==> forall d :: d in TagsIn(heads[1..]) ==> d.handle != heads[0].directive.handle
  {
    var rest := heads[1..];
    if heads[0].VersionT? {
      forall i | 0 <= i < |rest| ensures !rest[i].VersionT? {
        assert TogetherIn(heads[0], heads[i + 1]);
      }
      NoVersion(rest);
    }
    if heads[0].TagDirectiveT? {
      forall d | d in TagsIn(rest) ensures d.handle != heads[0].directive.handle {
        TagsInFrom(rest, d);
        var i :| 0 <= i < |rest| && rest[i] == TagDirectiveT(d);
        assert TogetherIn(heads[0], heads[i + 1]);
      }
    }
  }

  lemma {:induction false} NotDeclared(tags: seq<TagDirective>, d: TagDirective, h: Name)
    requires !Declares(tags, h) && d.handle != h
    ensures !Declares(tags + [d], h)
  {
  }

  /** Directives are read as what they declare. */
  lemma {:induction false} HeadsRead(tokens: seq<Token>, heads: seq<Kind>, version: Option<Version>,
      tags: seq<TagDirective>)
    requires Spells(tokens, heads + [DocumentStartT]) && WritableHeads(heads)
    requires version.Some? ==> VersionIn(heads) == None
    requires forall d :: d in TagsIn(heads) ==> !Declares(tags, d.handle)
    ensures ProcessDirectives(tokens, version, tags, tags) ==
      Some(Directives(if version.Some? then version else VersionIn(heads), tags + TagsIn(heads),
                      WithDefaults(tags + TagsIn(heads)), tokens[|heads|..]))
    decreases heads
  {
    hide WithDefaults, FindDirective, WritableHeads, Declares, ProcessDirectives, Spells;
    if heads == [] {
      NoHeadsRead(tokens, version, tags);
    } else {
      var k, rest := heads[0], heads[1..];
      assert heads + [DocumentStartT] == [k] + (rest + [DocumentStartT]);
      SpellsBoth(tokens, [k], rest + [DocumentStartT]);
      DropTwice(tokens, 1, |rest|);
      HeadsApart(heads);
      HeadKinds(heads);
      FirstSpelled(tokens, k);
      if k.VersionT? {
        VersionRead(tokens, tags);
        HeadsRead(tokens[1..], rest, Some(k.version), tags);
        assert [] + TagsIn(rest) == TagsIn(rest);
      } else {
        TagsRead(tokens, rest, version, tags);
        HeadsRead(tokens[1..], rest, version, tags + [k.directive]);
        assert tags + [k.directive] + TagsIn(rest) == tags + ([k.directive] + TagsIn(rest));
      }
    }
  }

  lemma {:induction false} FirstSpelled(tokens: seq<Token>, k: Kind)
    requires Spells(tokens, [k])
    ensures tokens != [] && tokens[0].kind == k
  {
    assert [k][0] == k;
  }

  lemma {:induction false} HeadKinds(heads: seq<Kind>)
    requires WritableHeads(heads) && heads != []
    ensures heads[0].VersionT? || heads[0].TagDirectiveT?
    ensures heads[0].VersionT? ==> heads[0].version.major == 1 && heads[0].version.minor in {1, 2}
  {
  }

  lemma {:induction false} NoHeadsRead(tokens: seq<Token>, version: Option<Version>, tags: seq<TagDirective>)
    requires Spells(tokens, [] + [DocumentStartT])
    ensures ProcessDirectives(tokens, version, tags, tags) ==
      Some(Directives(version, tags + TagsIn([]), WithDefaults(tags + TagsIn([])), tokens[0..]))
    ensures VersionIn([]) == None
  {
    hide WithDefaults;
    assert ([] + [DocumentStartT])[0] == DocumentStartT && tokens[0..] == tokens && tags + [] == tags;
  }

  lemma {:induction false} VersionRead(tokens: seq<Token>, tags: seq<TagDirective>)
    requires tokens != [] && tokens[0].kind.VersionT?
    requires tokens[0].kind.version.major == 1 && tokens[0].kind.version.minor in {1, 2}
    ensures ProcessDirectives(tokens, None, tags, tags) ==
      ProcessDirectives(tokens[1..], Some(tokens[0].kind.version), tags, tags)
  {
  }

  lemma {:induction false} TagsRead(tokens: seq<Token>, rest: seq<Kind>, version: Option<Version>,
      tags: seq<TagDirective>)
    requires tokens != [] && tokens[0].kind.TagDirectiveT?
    requires forall d :: d in [tokens[0].kind.directive] + TagsIn(rest) ==> !Declares(tags, d.handle)
    requires forall d :: d in TagsIn(rest) ==> d.handle != tokens[0].kind.directive.handle
    ensures var d := tokens[0].kind.directive;
      && ProcessDirectives(tokens, version, tags, tags) ==
        ProcessDirectives(tokens[1..], version, tags + [d], tags + [d])
      && forall x :: x in TagsIn(rest) ==> !Declares(tags + [d], x.handle)
  {
    hide Declares, FindDirective, TagsIn;
    var d := tokens[0].kind.directive;
    assert d in [d] + TagsIn(rest);
    FoundIff(tags, d.handle);
    forall x | x in TagsIn(rest) ensures !Declares(tags + [d], x.handle) {
      NotDeclared(tags, d, x.handle);
    }
  }

  // ---------------------------------------------------------------- documents

  lemma {:induction false} EndsSkipped(tokens: seq<Token>, m: nat)
    requires Spells(tokens, Times(m, DocumentEndT)) && |Times(m, DocumentEndT)| < |tokens|
    requires !tokens[|Times(m, DocumentEndT)|].kind.DocumentEndT?
    ensures SkipEnds(tokens) == tokens[|Times(m, DocumentEndT)|..]
    decreases m
  {
    if m > 0 {
      var rest := Times(m - 1, DocumentEndT);
      SpellsBoth(tokens, [DocumentEndT], rest);
      assert ([DocumentEndT] + rest)[0] == DocumentEndT;
      EndsSkipped(tokens[1..], m - 1);
    }
  }

  /** Where a document may start: at the very beginning, or with DOCUMENT-ENDs still to skip. */
  ghost predicate Ready(p: Parser, first: bool, m: nat) {
    && p.states == [] && p.marks == [] && p.directives == []
    && p.state == (if first then ImplicitDocumentStartS else DocumentStartS) && (first ==> m == 0)
    && Spells(p.tokens, Times(m, DocumentEndT)) && |Times(m, DocumentEndT)| < |p.tokens|
  }

  /** The step is that of the tokens behind the DOCUMENT-ENDs. */
  lemma {:induction false} ReadySteps(p: Parser, first: bool, m: nat)
    requires Ready(p, first, m) && !p.tokens[|Times(m, DocumentEndT)|].kind.DocumentEndT?
    ensures Inv(p) && Step(p) == ParseDocumentStart(p.(tokens := p.tokens[|Times(m, DocumentEndT)|..]), first)
  {
    hide ProcessDirectives;
    EndsSkipped(p.tokens, m);
    assert first ==> p.tokens[0..] == p.tokens;
    var q := p.(tokens := p.tokens[|Times(m, DocumentEndT)|..]);
    assert SkipEnds(q.tokens) == q.tokens;
  }

  lemma {:induction false} ImplicitStarts(p: Parser)
    requires p.states == [] && p.directives == [] && p.tokens != [] && Begins(p.tokens[0].kind, true, false)
    ensures ParseDocumentStart(p, true) ==
      Emit(DocumentStart(None, [], true),
           Parser(p.tokens, BlockNodeS, [DocumentEndS], p.marks, WithDefaults([])))
  {
    hide WithDefaults, ProcessDirectives;
    assert [] + [DocumentEndS] == [DocumentEndS];
  }

  lemma {:induction false} ExplicitStarts(p: Parser, first: bool, heads: seq<Kind>)
    requires p.states == [] && p.directives == [] && Spells(p.tokens, heads + [DocumentStartT]) && WritableHeads(heads)
    ensures ParseDocumentStart(p, first) ==
      Emit(DocumentStart(VersionIn(heads), TagsIn(heads), false),
           Parser(p.tokens[|heads| + 1..], DocumentContentS, [DocumentEndS], p.marks, WithDefaults(TagsIn(heads))))
  {
    hide WithDefaults, ProcessDirectives, VersionIn, TagsIn, WritableHeads, Declares, Spells, SkipEnds;
    NoneDeclared();
    HeadsRead(p.tokens, heads, None, []);
    HeadFirst(p.tokens, heads);
    StartToken(p.tokens, heads);
    assert [] + TagsIn(heads) == TagsIn(heads) && [] + [DocumentEndS] == [DocumentEndS];
    NothingSkipped(p.tokens);
  }

  lemma {:induction false} NoneDeclared()
    ensures forall h :: !Declares([], h)
  {
  }

  lemma {:induction false} NothingSkipped(tokens: seq<Token>)
    requires tokens != [] && !tokens[0].kind.DocumentEndT?
    ensures SkipEnds(tokens) == tokens
  {
  }

  lemma {:induction false} StartToken(tokens: seq<Token>, heads: seq<Kind>)
    requires Spells(tokens, heads + [DocumentStartT])
    ensures |heads| < |tokens| && tokens != []
    ensures var rest := tokens[|heads|..]; rest[0].kind == DocumentStartT && rest[1..] == tokens[|heads| + 1..]
  {
    SpellsBoth(tokens, heads, [DocumentStartT]);
    DropTwice(tokens, |heads|, 1);
    assert [DocumentStartT][0] == DocumentStartT;
  }

  lemma {:induction false} HeadFirst(tokens: seq<Token>, heads: seq<Kind>)
    requires Spells(tokens, heads + [DocumentStartT]) && WritableHeads(heads)
    ensures var k := tokens[0].kind; k.VersionT? || k.TagDirectiveT? || k.DocumentStartT?
  {
    assert (heads + [DocumentStartT])[0] == if heads == [] then DocumentStartT else heads[0];
  }

  lemma {:induction false} TagsApart(heads: seq<Kind>)
    requires WritableHeads(heads)
    ensures Apart(TagsIn(heads))
  {
    if heads != [] {
      HeadsApart(heads);
      TagsApart(heads[1..]);
      hide WritableHeads;
      var rest := TagsIn(heads[1..]);
      if heads[0].TagDirectiveT? {
        ApartMore(heads[0].directive, rest);
      } else {
        assert [] + rest == rest;
      }
    }
  }

  lemma {:induction false} ApartMore(d: TagDirective, tags: seq<TagDirective>)
    requires Apart(tags) && forall x :: x in tags ==> x.handle != d.handle
    ensures Apart([d] + tags)
  {
    var all := [d] + tags;
    forall i, j | 0 <= i < j < |all| ensures all[i].handle != all[j].handle {
      if i == 0 {
        assert all[j] == tags[j - 1] && tags[j - 1] in tags;
      } else {
        assert all[i] == tags[i - 1] && all[j] == tags[j - 1];
      }
    }
  }

  /** The root, from behind the document's start to before its end. */
  lemma {:induction false} RootParses(p: Parser, root: Node, tags: seq<TagDirective>, explicit: bool)
    requires p.states == [DocumentEndS] && p.marks == [] && p.directives == WithDefaults(tags) && Apart(tags)
    requires p.state == if explicit then DocumentContentS else BlockNodeS
    requires explicit || !root.Missing?
    requires WritableSlot(root, ScopeOf(tags), true, false) && Spells(p.tokens, NodeKinds(root))
    requires |NodeKinds(root)| < |p.tokens| && EndsDocument(p.tokens[|NodeKinds(root)|].kind)
    ensures Leads(p, Flatten(Meaning(root, ScopeOf(tags))),
              Parser(p.tokens[|NodeKinds(root)|..], DocumentEndS, [], [], p.directives))
  {
    hide Leads, WithDefaults, ScopeOf, Apart, Means, ParseNode, Writable, NodeKinds, Meaning, Flatten, Step, Parses,
      EndsDocument, Begins, Spells;
    var scope, n := ScopeOf(tags), |NodeKinds(root)|;
    DirectivesMean(tags);
    RootDue(p);
    assert [DocumentEndS][..0] == [];
    if root.Missing? {
      NothingSpelled();
      assert p.tokens[0..] == p.tokens;
      NoRoot(p);
      NothingMeans(scope);
    } else {
      SlotFirst(p.tokens, root, scope, true, false);
      NodeStarts(p.tokens[0].kind);
      NodeEnds(p.tokens, n);
      NodeParses(root, p, true, false, scope);
      Taken(p, p, true, false, Meaning(root, scope), Behind(p, n));
    }
  }

  lemma {:induction false} NodeStarts(k: Kind)
    ensures Begins(k, true, false) ==> !EndsDocument(k)
  {
  }

  lemma {:induction false} NodeEnds(tokens: seq<Token>, n: nat)
    requires n < |tokens| && EndsDocument(tokens[n].kind)
    ensures Followed(tokens, n, false)
  {
  }

  lemma {:induction false} NothingMeans(scope: Scope)
    ensures Flatten(Meaning(Missing, scope)) == [EMPTY]
  {
  }

  lemma {:induction false} RootDue(p: Parser)
    requires p.states == [DocumentEndS] && p.marks == [] && p.tokens != []
    requires p.state == DocumentContentS || p.state == BlockNodeS
    ensures Inv(p)
    ensures p.state == BlockNodeS || !EndsDocument(p.tokens[0].kind) ==> Step(p) == ParseNode(p, true, false)
    ensures p.state == DocumentContentS && EndsDocument(p.tokens[0].kind) ==> Step(p) == Emit(EMPTY, Popped(p))
  {
    hide ParseNode, EndsDocument;
  }

  lemma {:induction false} NoRoot(p: Parser)
    requires Inv(p) && p.states == [DocumentEndS] && p.marks == [] && p.tokens != []
    requires Step(p) == Emit(EMPTY, Popped(p))
    ensures Leads(p, [EMPTY], Parser(p.tokens, DocumentEndS, [], [], p.directives))
  {
    hide Leads, Inv, Step;
    assert [DocumentEndS][..0] == [];
    LeadsStep(p, EMPTY, Popped(p));
  }

  /** The end: of any DOCUMENT-ENDs one goes now, the others before the next document. */
  lemma {:induction false} DocumentEnds(p: Parser, ends: nat)
    requires p.state == DocumentEndS && p.states == [] && p.marks == []
    requires Spells(p.tokens, Times(ends, DocumentEndT)) && |Times(ends, DocumentEndT)| < |p.tokens|
    requires !p.tokens[|Times(ends, DocumentEndT)|].kind.DocumentEndT?
    ensures var m := if ends == 0 then 0 else ends - 1;
      var q := Parser(p.tokens[ends - m..], DocumentStartS, [], [], []);
      && |Times(ends, DocumentEndT)| == ends && |Times(m, DocumentEndT)| == m
      && Leads(p, [DocumentEnd(ends == 0)], q) && Ready(q, false, m)
  {
    TimesLength(ends);
    var m := if ends == 0 then 0 else ends - 1;
    TimesLength(m);
    var q := Parser(p.tokens[ends - m..], DocumentStartS, [], [], []);
    if ends == 0 {
      assert p.tokens[0..] == p.tokens;
    } else {
      var rest := Times(m, DocumentEndT);
      assert Times(ends, DocumentEndT) == [DocumentEndT] + rest;
      SpellsBoth(p.tokens, [DocumentEndT], rest);
      assert ([DocumentEndT] + rest)[0] == DocumentEndT;
    }
    hide Leads;
    LeadsStep(p, DocumentEnd(ends == 0), q);
  }

  lemma {:induction false} TimesLength(n: nat)
    ensures |Times(n, DocumentEndT)| == n
  {
    if n > 0 {
      TimesLength(n - 1);
    }
  }

  /** What may come behind a document. */
  predicate Parted(k: Kind) {
    k.VersionT? || k.TagDirectiveT? || k.DocumentStartT? || k.StreamEndT?
  }

  /** The start of a document that is written from `rest` on, behind `m` DOCUMENT-ENDs. */
  function Started(d: Written, rest: seq<Token>): Parser
    requires |d.heads| + 1 <= |rest|
  {
    Parser(if d.explicit then rest[|d.heads| + 1..] else rest, if d.explicit then DocumentContentS else BlockNodeS,
      [DocumentEndS], [], WithDefaults(TagsIn(d.heads)))
  }

  lemma {:induction false} DocumentStarts(d: Written, first: bool, p: Parser, m: nat)
    requires Ready(p, first, m) && WritableDocument(d, first)
    requires |d.heads| + 1 <= |p.tokens[|Times(m, DocumentEndT)|..]|
    requires var rest := p.tokens[|Times(m, DocumentEndT)|..];
      if d.explicit then Spells(rest, d.heads + [DocumentStartT]) else Begins(rest[0].kind, true, false)
    ensures Leads(p, [DocumentStart(VersionIn(d.heads), TagsIn(d.heads), !d.explicit)],
              Started(d, p.tokens[|Times(m, DocumentEndT)|..]))
  {
    var n := |Times(m, DocumentEndT)|;
    var rest := p.tokens[n..];
    assert rest[0] == p.tokens[n];
    if d.explicit {
      HeadFirst(rest, d.heads);
    }
    hide Leads, Inv, Step, WithDefaults, Spells, TagsIn, VersionIn, WritableHeads, WritableSlot, ParseDocumentStart;
    ReadySteps(p, first, m);
    var q := p.(tokens := rest);
    if d.explicit {
      ExplicitStarts(q, first, d.heads);
    } else {
      ImplicitStarts(q);
      NoHeads();
    }
    LeadsStep(p, DocumentStart(VersionIn(d.heads), TagsIn(d.heads), !d.explicit), Started(d, rest));
  }

  lemma {:induction false} NoHeads()
    ensures TagsIn([]) == [] && VersionIn([]) == None
  {
  }

  /** How many tokens a document has before its root. */
  function HeadCount(d: Written): nat {
    if d.explicit then |d.heads| + 1 else 0
  }

  /** What follows a root: DOCUMENT-ENDs and something else. */
  lemma {:induction false} RootFollowed(tokens: seq<Token>, ends: nat)
    requires Spells(tokens, Times(ends, DocumentEndT)) && |Times(ends, DocumentEndT)| == ends < |tokens|
    requires Parted(tokens[ends].kind)
    ensures EndsDocument(tokens[0].kind) && !tokens[ends].kind.DocumentEndT?
  {
    if ends > 0 {
      assert Times(ends, DocumentEndT)[0] == DocumentEndT;
    }
  }

  lemma {:induction false} ThreeParts(tokens: seq<Token>, a: seq<Kind>, b: seq<Kind>, c: seq<Kind>)
    requires Spells(tokens, a + b + c) && |a + b + c| < |tokens|
    ensures |a| + |b| + |c| < |tokens|
    ensures var rest := tokens[|a|..][|b|..];
      && Spells(tokens, a) && Spells(tokens[|a|..], b) && Spells(rest, c)
      && |c| < |rest| && rest[0] == tokens[|a|..][|b|]
      && rest[|c|] == tokens[|a + b + c|] && rest[|c|..] == tokens[|a + b + c|..]
  {
    hide Spells;
    SpellsBoth(tokens, a + b, c);
    SpellsBoth(tokens, a, b);
  }

  /** The parts of a document's tokens. */
  lemma {:induction false} DocumentSpelled(d: Written, rest: seq<Token>)
    requires Spells(rest, WrittenKinds(d)) && |WrittenKinds(d)| < |rest| && Parted(rest[|WrittenKinds(d)|].kind)
    requires d.explicit || d.heads == []
    ensures var h, n := HeadCount(d), |NodeKinds(d.root)|;
      && |d.heads| + 1 <= |rest| && |WrittenKinds(d)| == h + n + d.ends && |Times(d.ends, DocumentEndT)| == d.ends
      && (d.explicit ==> Spells(rest, d.heads + [DocumentStartT]))
      && Spells(rest[h..], NodeKinds(d.root)) && Spells(rest[h..][n..], Times(d.ends, DocumentEndT))
      && EndsDocument(rest[h..][n].kind) && !rest[h..][n..][d.ends].kind.DocumentEndT?
      && rest[h..][n..][d.ends..] == rest[|WrittenKinds(d)|..]
  {
    hide Spells, NodeKinds, Times, Parted, EndsDocument;
    TimesLength(d.ends);
    var head := if d.explicit then d.heads + [DocumentStartT] else [];
    var root, ends := NodeKinds(d.root), Times(d.ends, DocumentEndT);
    ThreeParts(rest, head, root, ends);
    RootFollowed(rest[|head|..][|root|..], d.ends);
  }

  /** A whole document. */
  lemma {:induction false} DocumentParses(d: Written, first: bool, p: Parser, m: nat) returns (m': nat, q: Parser)
    requires Ready(p, first, m) && WritableDocument(d, first)
    requires var rest := p.tokens[|Times(m, DocumentEndT)|..];
      Spells(rest, WrittenKinds(d)) && |WrittenKinds(d)| < |rest| && Parted(rest[|WrittenKinds(d)|].kind)
    ensures Ready(q, false, m')
    ensures Leads(p, [WrittenMeaning(d).start] + Flatten(WrittenMeaning(d).root) + [WrittenMeaning(d).end], q)
    ensures q.tokens[|Times(m', DocumentEndT)|..] == p.tokens[|Times(m, DocumentEndT)|..][|WrittenKinds(d)|..]
  {
    hide Leads, Spells, NodeKinds, Meaning, Flatten, TagsIn, VersionIn, WritableHeads, Writable, Ready, WithDefaults,
      WrittenKinds, Times, Parted, EndsDocument, Begins, ScopeOf;
    ReadyHas(p, first, m);
    var rest := p.tokens[|Times(m, DocumentEndT)|..];
    var h, n := HeadCount(d), |NodeKinds(d.root)|;
    DocumentSpelled(d, rest);
    if !d.explicit {
      assert rest[0..] == rest;
      SlotFirst(rest, d.root, ScopeOf(TagsIn(d.heads)), true, false);
    }
    DocumentStarts(d, first, p, m);
    var p1 := Started(d, rest);
    assert p1.tokens == rest[h..];
    m', q := DocumentRest(d, p1);
    var r := Flatten(WrittenMeaning(d).root) + [WrittenMeaning(d).end];
    LeadsOn(p, [WrittenMeaning(d).start], p1, r, q);
    Three(WrittenMeaning(d).start, Flatten(WrittenMeaning(d).root), WrittenMeaning(d).end);
  }

  lemma {:induction false} ReadyHas(p: Parser, first: bool, m: nat)
    requires Ready(p, first, m)
    ensures |Times(m, DocumentEndT)| < |p.tokens|
  {
  }

  lemma {:induction false} Three(a: Event, b: seq<Event>, c: Event)
    ensures [a] + (b + [c]) == [a] + b + [c]
  {
  }

  lemma {:induction false} DocumentRest(d: Written, p: Parser) returns (m: nat, q: Parser)
    requires p == Parser(p.tokens, if d.explicit then DocumentContentS else BlockNodeS, [DocumentEndS], [],
      WithDefaults(TagsIn(d.heads)))
    requires WritableHeads(d.heads) && (d.explicit || !d.root.Missing?)
    requires WritableSlot(d.root, ScopeOf(TagsIn(d.heads)), true, false)
    requires var n := |NodeKinds(d.root)|;
      && Spells(p.tokens, NodeKinds(d.root)) && n < |p.tokens| && EndsDocument(p.tokens[n].kind)
      && Spells(p.tokens[n..], Times(d.ends, DocumentEndT)) && |Times(d.ends, DocumentEndT)| == d.ends
      && n + d.ends < |p.tokens| && !p.tokens[n..][d.ends].kind.DocumentEndT?
    ensures Ready(q, false, m)
    ensures Leads(p, Flatten(WrittenMeaning(d).root) + [WrittenMeaning(d).end], q)
    ensures q.tokens[|Times(m, DocumentEndT)|..] == p.tokens[|NodeKinds(d.root)|..][d.ends..]
  {
    hide Leads, Spells, NodeKinds, Meaning, Flatten, TagsIn, VersionIn, WritableHeads, Writable, Ready, WithDefaults,
      EndsDocument, WritableSlot;
    var n := |NodeKinds(d.root)|;
    TagsApart(d.heads);
    RootParses(p, d.root, TagsIn(d.heads), d.explicit);
    var p2 := Parser(p.tokens[n..], DocumentEndS, [], [], p.directives);
    DocumentEnds(p2, d.ends);
    m := if d.ends == 0 then 0 else d.ends - 1;
    q := Parser(p2.tokens[d.ends - m..], DocumentStartS, [], [], []);
    DropTwice(p2.tokens, d.ends - m, m);
    LeadsOn(p, Flatten(WrittenMeaning(d).root), p2, [WrittenMeaning(d).end], q);
  }

  // ---------------------------------------------------------------- whole streams

  lemma {:induction false} FirstParted(d: Written, tokens: seq<Token>)
    requires d.explicit && WritableHeads(d.heads) && Spells(tokens, WrittenKinds(d))
    ensures WrittenKinds(d) != [] && Parted(tokens[0].kind)
  {
    var rest := NodeKinds(d.root) + Times(d.ends, DocumentEndT);
    assert WrittenKinds(d) == d.heads + [DocumentStartT] + rest;
    SpellsBoth(tokens, d.heads + [DocumentStartT], rest);
    HeadFirst(tokens, d.heads);
  }

  /** The documents of a stream, one after the other. */
  lemma {:induction false} DocumentsParse(docs: seq<Written>, p: Parser) returns (m: nat, q: Parser)
    requires Ready(p, true, 0) && WritableAll(docs) && Spells(p.tokens, AllKinds(docs))
    requires |AllKinds(docs)| < |p.tokens| && Parted(p.tokens[|AllKinds(docs)|].kind)
    ensures Ready(q, docs == [], m) && Leads(p, FlattenDocuments(AllMeaning(docs)), q)
    ensures |Times(m, DocumentEndT)| < |q.tokens|
    ensures q.tokens[|Times(m, DocumentEndT)|..] == p.tokens[|AllKinds(docs)|..]
    decreases |docs|
  {
    hide Leads, Spells, Ready, WrittenKinds, WritableHeads, WritableSlot, WrittenMeaning, Flatten, Parted;
    ReadyHas(p, true, 0);
    if docs == [] {
      m, q := 0, p;
      ReadyInv(p);
      LeadsSelf(p);
    } else {
      var n := |docs| - 1;
      var front, last := AllKinds(docs[..n]), WrittenKinds(docs[n]);
      SpellsBoth(p.tokens, front, last);
      DropTwice(p.tokens, |front|, |last|);
      var m1, q1 := 0, p;
      if n == 0 {
        assert docs[..0] == [] && p.tokens[0..] == p.tokens;
        ReadyInv(p);
        LeadsSelf(p);
      } else {
        FirstParted(docs[n], p.tokens[|front|..]);
        assert p.tokens[|front|..][0] == p.tokens[|front|];
        m1, q1 := DocumentsParse(docs[..n], p);
      }
      assert p.tokens[|front|..][|last|] == p.tokens[|AllKinds(docs)|];
      m, q := DocumentParses(docs[n], n == 0, q1, m1);
      ReadyHas(q, false, m);
      var d := WrittenMeaning(docs[n]);
      LeadsOn(p, FlattenDocuments(AllMeaning(docs[..n])), q1, [d.start] + Flatten(d.root) + [d.end], q);
      FlattenMore(AllMeaning(docs[..n]), d);
    }
  }

  lemma {:induction false} FlattenMore(docs: seq<Document>, d: Document)
    ensures FlattenDocuments(docs + [d]) == FlattenDocuments(docs) + ([d.start] + Flatten(d.root) + [d.end])
  {
    assert (docs + [d])[..|docs|] == docs;
  }

  lemma {:induction false} ReadyInv(p: Parser)
    requires Ready(p, true, 0)
    ensures Inv(p)
  {
  }

  lemma {:induction false} StreamStarts(tokens: seq<Token>)
    requires |tokens| >= 2 && tokens[0].kind == StreamStartT
    ensures var p := Parser(tokens[1..], ImplicitDocumentStartS, [], [], []);
      Ready(p, true, 0) && Leads(Start(tokens), [StreamStart], p)
  {
    hide Leads;
    LeadsStep(Start(tokens), StreamStart, Parser(tokens[1..], ImplicitDocumentStartS, [], [], []));
  }

  lemma {:induction false} StreamEnds(p: Parser, first: bool, m: nat)
    requires Ready(p, first, m) && p.tokens[|Times(m, DocumentEndT)|].kind == StreamEndT
    ensures Inv(p) && Run(p).events == [StreamEnd] && Run(p).last.state == EndS
  {
    hide Run, ProcessDirectives;
    ReadySteps(p, first, m);
    var q := p.(tokens := p.tokens[|Times(m, DocumentEndT)|..]);
    assert q.tokens[0].kind == StreamEndT;
    NothingSkipped(q.tokens);
    var r := Skipped(q).(state := EndS);
    assert Step(p) == Emit(StreamEnd, r);
    hide Step, Inv;
    LeadsStep(p, StreamEnd, r);
    RunsOut(r);
  }

  lemma {:induction false} RunsOut(p: Parser)
    requires Inv(p) && p.state == EndS
    ensures Run(p) == Log([], p)
  {
  }

  /** For every stream that is written, the parser emits exactly the events it means, and gets
      to its end. */
  lemma {:induction false} StreamParses(docs: seq<Written>, tokens: seq<Token>)
    requires WritableAll(docs) && |tokens| == |StreamKinds(docs)| && Spells(tokens, StreamKinds(docs))
    ensures Run(Start(tokens)).events == Stream(AllMeaning(docs)) && Run(Start(tokens)).last.state == EndS
  {
    hide AllKinds, WritableAll, Spells, Run, Ready, FlattenDocuments, AllMeaning;
    var ks := AllKinds(docs);
    SpellsBoth(tokens, [StreamStartT] + ks, [StreamEndT]);
    SpellsBoth(tokens, [StreamStartT], ks);
    SpellsEnds(tokens, ks);
    StreamStarts(tokens);
    var p := Parser(tokens[1..], ImplicitDocumentStartS, [], [], []);
    var m, q := DocumentsParse(docs, p);
    assert q.tokens[|Times(m, DocumentEndT)|] == q.tokens[|Times(m, DocumentEndT)|..][0] == p.tokens[|ks|..][0];
    StreamEnds(q, docs == [], m);
    LeadsOn(Start(tokens), [StreamStart], p, FlattenDocuments(AllMeaning(docs)), q);
  }

  lemma {:induction false} SpellsEnds(tokens: seq<Token>, ks: seq<Kind>)
    requires Spells(tokens, [StreamStartT] + ks + [StreamEndT])
    ensures tokens[0].kind == StreamStartT && tokens[1..][|ks|].kind == StreamEndT
  {
    assert ([StreamStartT] + ks + [StreamEndT])[0] == StreamStartT;
    assert ([StreamStartT] + ks + [StreamEndT])[|ks| + 1] == StreamEndT;
  }

  // ---------------------------------------------------------------- where the productions are not followed

  lemma {:induction false} FailsAt(p: Parser)
    requires Inv(p) && Step(p) == Fail
    ensures Run(p) == Log([], p)
  {
    hide Step, Inv;
  }

  /** A pair of a flow sequence whose key is left out, `KEY VALUE value`: the token after KEY is
      skipped as if it were the left-out key. So the pair is read as meant exactly if the value
      is left out too; otherwise the parser fails at the value. */
  lemma {:induction false} KeylessPair(p: Parser, value: Node, scope: Scope)
    requires Inv(p) && p.state == FlowSequenceEntryMappingKeyS && WritableSlot(value, scope, false, false)
    requires Spells(p.tokens, [ValueT] + NodeKinds(value)) && |NodeKinds(value)| + 1 < |p.tokens|
    requires EntryFollows(FlowSequence, p.tokens[|NodeKinds(value)| + 1].kind)
    ensures var q := At(p, FlowSequenceEntryS, 1);
      && Leads(p, [EMPTY, EMPTY, MappingEnd], q)
      && (value.Missing? <==> EntryFollows(FlowSequence, q.tokens[0].kind))
      && (!value.Missing? ==> Run(p).events == [EMPTY, EMPTY, MappingEnd] && Run(p).last == q)
  {
    hide Leads, NodeKinds, Writable, Run, Step, Inv;
    SpellsBoth(p.tokens, [ValueT], NodeKinds(value));
    FirstSpelled(p.tokens, ValueT);
    if value.Missing? {
      NothingSpelled();
    } else {
      SlotFirst(p.tokens[1..], value, scope, false, false);
    }
    KeySkipped(p);
    var q := At(p, FlowSequenceEntryS, 1);
    if !value.Missing? {
      StopsBehindPair(p, q);
    }
  }

  /** And a KEY alone swallows the comma or bracket behind it: what comes next is taken to be
      behind the pair. Behind a comma that is as meant exactly if no entry follows; otherwise the
      parser fails at the entry. A bracket no longer closes the sequence. */
  lemma {:induction false} KeyAlone(p: Parser)
    requires Inv(p) && p.state == FlowSequenceEntryMappingKeyS && |p.tokens| >= 2
    requires EntryFollows(FlowSequence, p.tokens[0].kind) && !p.tokens[1].kind.ValueT?
    ensures var q := At(p, FlowSequenceEntryS, 1);
      && Leads(p, [EMPTY, EMPTY, MappingEnd], q)
      && (!EntryFollows(FlowSequence, q.tokens[0].kind) ==> Run(p) == Log([EMPTY, EMPTY, MappingEnd], q))
  {
    hide Leads, Run, Step, Inv;
    KeySkipped(p);
    var q := At(p, FlowSequenceEntryS, 1);
    if !EntryFollows(FlowSequence, q.tokens[0].kind) {
      StopsBehindPair(p, q);
    }
  }

  lemma {:induction false} StopsBehindPair(p: Parser, q: Parser)
    requires Leads(p, [EMPTY, EMPTY, MappingEnd], q) && q.state == FlowSequenceEntryS && q.tokens != []
    requires !EntryFollows(FlowSequence, q.tokens[0].kind)
    ensures Run(p) == Log([EMPTY, EMPTY, MappingEnd], q)
  {
    hide Leads, Run, Step, Inv;
    LeadsThere(p, [EMPTY, EMPTY, MappingEnd], q);
    StuckBehindPair(q);
    FailsAt(q);
    LeadsAll(p, [EMPTY, EMPTY, MappingEnd], q);
  }

  lemma {:induction false} LeadsAll(p: Parser, events: seq<Event>, q: Parser)
    requires Leads(p, events, q) && Run(q) == Log([], q)
    ensures Run(p) == Log(events, q)
  {
    hide Run, Inv;
    assert events + [] == events;
  }

  lemma {:induction false} StuckBehindPair(p: Parser)
    requires Inv(p) && p.state == FlowSequenceEntryS && p.tokens != []
    requires !EntryFollows(FlowSequence, p.tokens[0].kind)
    ensures Step(p) == Fail
  {
    hide Inv, Step, ParseFlowSequenceItem;
    EndDue(FlowSequence, p);
    StepGoesOn(p);
  }

  lemma {:induction false} StepSkips(p: Parser)
    requires Inv(p) && p.state == FlowSequenceEntryMappingKeyS && p.tokens != []
    requires p.tokens[0].kind.ValueT? || EntryFollows(FlowSequence, p.tokens[0].kind)
    ensures Step(p) == EmptyScalar(Skipped(p), FlowSequenceEntryMappingValueS)
  {
    hide ParseNode;
  }

  lemma {:induction false} KeySkipped(p: Parser)
    requires Inv(p) && p.state == FlowSequenceEntryMappingKeyS && |p.tokens| >= 2
    requires p.tokens[0].kind.ValueT? || EntryFollows(FlowSequence, p.tokens[0].kind)
    requires !p.tokens[1].kind.ValueT?
    ensures Leads(p, [EMPTY, EMPTY, MappingEnd], At(p, FlowSequenceEntryS, 1))
  {
    hide Leads, Step, Inv;
    var p1 := At(p, FlowSequenceEntryMappingValueS, 1);
    StepSkips(p);
    LeadsStep(p, EMPTY, p1);
    LeadsThere(p, [EMPTY], p1);
    NoValue(p1, FlowSequenceEntryMappingEndS);
    var p2 := At(p1, FlowSequenceEntryMappingEndS, 0);
    LeadsThere(p1, Flatten(NOTHING), p2);
    PairEnds(p2);
    assert p1.tokens[0..] == p1.tokens && p2.tokens[0..] == p2.tokens;
    assert Flatten(NOTHING) == [EMPTY];
    LeadsOn(p, [EMPTY], p1, [EMPTY], p2);
    LeadsOn(p, [EMPTY] + [EMPTY], p2, [MappingEnd], At(p2, FlowSequenceEntryS, 0));
    assert [EMPTY] + [EMPTY] + [MappingEnd] == [EMPTY, EMPTY, MappingEnd];
  }

  /** A VALUE without a KEY, which the productions of a block mapping allow, is an error. */
  lemma {:induction false} KeylessValue(p: Parser)
    requires Inv(p) && (p.state == BlockMappingKeyS || p.state == BlockMappingFirstKeyS)
    requires var n := if p.state == BlockMappingKeyS then 0 else 1; n < |p.tokens| && p.tokens[n].kind.ValueT?
    ensures Run(p) == Log([], p)
  {
    hide Run, Step, Inv;
    KeyDue(p);
    if p.state == BlockMappingFirstKeyS {
      assert p.tokens[1..][0] == p.tokens[1];
    }
    FailsAt(p);
  }

  lemma {:induction false} KeyDue(p: Parser)
    requires Inv(p) && (p.state == BlockMappingKeyS || p.state == BlockMappingFirstKeyS)
    ensures p.states != [] && (p.state == BlockMappingKeyS ==> p.marks != [])
    ensures p.tokens != [] ==> Step(p) == ParseBlockMappingKey(p, p.state == BlockMappingFirstKeyS)
  {
    hide MarkCount, ParseBlockMappingKey;
  }
}
