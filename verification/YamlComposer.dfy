/**
 The loader as the source has it: it pulls events from the parser and builds the document's
 nodes in place. No assertion of the source can fail, and what is built is what `YamlLoader`
 says of the events pulled, which are those of one node tree.
 */
module YamlComposer {
  import opened Bytes
  import opened YamlEvents
  import opened YamlGraph
  import opened YamlLoader
  import opened YamlRoundTrip
  import opened YamlBuilt
  import Parsing = YamlParser
  import YamlDumper

  /** The events of exactly one node. */
  ghost predicate OneNode(events: seq<Event>) {
    NoDocumentEnd(events) && AcceptAll(Inside([Root]), events) == Some(Inside([RootDone]))
  }

  lemma DocumentsEnd(docs: seq<Document>)
    requires docs != [] && forall i :: 0 <= i < |docs| ==> ProperDocument(docs[i])
    ensures |FlattenDocuments(docs)| >= 2
    ensures FlattenDocuments(docs)[|FlattenDocuments(docs)| - 1].DocumentEnd?
  {
  }

  lemma EndedBefore(r: Reading)
    requires r.Reading? && r.docs != [] && forall i :: 0 <= i < |r.docs| ==> ProperDocument(r.docs[i])
    ensures exists i :: 2 <= i < |Spelled(r)| && Spelled(r)[i].DocumentEnd?
  {
    DocumentsEnd(r.docs);
    var n := |FlattenDocuments(r.docs)|;
    assert Spelled(r)[n] == FlattenDocuments(r.docs)[n - 1];
  }

  /** What is read of one node behind a stream's and a document's start. */
  lemma OneOpen(r: Reading, start: Event, events: seq<Event>)
    requires start.DocumentStart? && NoDocumentEnd(events)
    requires Matches(r, Inside([RootDone])) && Spelled(r) == [StreamStart, start] + events
    ensures r.Reading? && |r.open| == 1 && |r.open[0].items| == 1 && r.docs == []
    ensures Flatten(r.open[0].items[0]) == events && ProperTree(r.open[0].items[0])
  {
    hide ProperTree, Flatten;
    var o := r.open[0];
    RootSpelled(o);
    if r.docs != [] {
      EndedBefore(r);
    }
    assert r.open[..0] == [];
    assert SpelledOpen(r.open) == [] + ([o.start] + Flatten(o.items[0]));
    assert Spelled(r) == [StreamStart] + [] + ([] + ([o.start] + Flatten(o.items[0])));
    assert Spelled(r)[2..] == Flatten(o.items[0]) && ([StreamStart, start] + events)[2..] == events;
  }

  /** They are those of a tree. */
  lemma NodeTree(events: seq<Event>) returns (t: Tree)
    requires OneNode(events)
    ensures ProperTree(t) && Flatten(t) == events
  {
    hide Spelled, Matches, Flatten, ProperTree;
    var start := DocumentStart(None, [], true);
    var head := [StreamStart, start];
    assert head == [StreamStart] + [start];
    AcceptOne(Fresh, StreamStart);
    AcceptOne(Between, start);
    AcceptConcat(Fresh, [StreamStart], [start]);
    AcceptConcat(Fresh, head, events);
    var r := AcceptedSpells(head + events);
    OneOpen(r, start, events);
    t := r.open[0].items[0];
  }

  /** Any node the parser spells loads exactly if its anchors are unique and come before their
      aliases; then dumping what was loaded gives the same events, anchors renamed. */
  lemma DocumentRoundTrip(events: seq<Event>)
    requires OneNode(events)
    ensures StepAll(START, events).Loaded? <==> WellAnchored(events)
    ensures StepAll(START, events).Loaded? ==>
      var g := StepAll(START, events).l.nodes;
      && Closed(g) && g != []
      && DumpNode(g, YamlDumper.Anchored(g), 1, {}).events ==
           Renamed(events, Targets(START, events), YamlDumper.Anchored(g))
  {
    var t := NodeTree(events);
    LoadsIffAnchored(t);
    hide WellAnchored, StepAll, DumpNode, Closed;
    if StepAll(START, events).Loaded? {
      RoundTrip(t);
    }
  }

  /** And the graph is the tree that the events spell, with every alias led to its anchor. */
  lemma DocumentStands(events: seq<Event>) returns (t: Tree, names: map<Name, nat>)
    requires OneNode(events) && StepAll(START, events).Loaded?
    ensures ProperTree(t) && Flatten(t) == events
    ensures |StepAll(START, events).l.nodes| == NodeCount(t) && Stands(StepAll(START, events).l.nodes, 1, t, 0, names)
  {
    hide StepAll, Stands, Flatten, ProperTree, OneNode;
    t := NodeTree(events);
    names := GraphStands(t);
  }

  class Composer {
    const parser: Parsing.YamlParser
    // document->nodes, parser->aliases and the loader's context
    var nodes: Graph
    var aliases: seq<Anchor>
    var ctx: seq<nat>
    var error: bool

    ghost function View(): Loading
      reads this
    {
      Loading(nodes, aliases, ctx)
    }

    /** The call did what `r` says, which is not to break an assertion. */
    ghost predicate Did(r: Result, ok: bool)
      reads this
    {
      (ok ==> r == Loaded(View())) && (!ok ==> r == Failed && error)
    }

    constructor (parser: Parsing.YamlParser)
      ensures this.parser == parser && View() == START && !error
    {
      this.parser := parser;
      nodes, aliases, ctx, error := [], [], [], false;
    }

    /** `yaml_parser_register_anchor` */
    method RegisterAnchor(index: nat, anchor: Option<Name>) returns (ok: bool)
      modifies `aliases, `error
      ensures Register(old(aliases), index, anchor) == if ok then Some(aliases) else None
      ensures error == (old(error) || !ok)
    {
      if anchor.None? {
        return true;
      }
      var i := 0;
      while i < |aliases|
        invariant 0 <= i <= |aliases|
        invariant forall j :: 0 <= j < i ==> aliases[j].name != anchor.value
      {
        if aliases[i].name == anchor.value {
          error := true;
          return false;
        }
        i := i + 1;
      }
      aliases := aliases + [Anchor(anchor.value, index)];
      ok := true;
    }

    /** `yaml_parser_load_node_add` */
    method AddNode(index: nat)
      requires NodeAdd(View(), index).Loaded?
      modifies `nodes
      ensures NodeAdd(old(View()), index) == Loaded(View())
    {
      if ctx == [] {
        return;
      }
      var parent := ctx[|ctx| - 1];
      match nodes[parent - 1] {
        case SequenceNode(tag, flow, items) =>
          nodes := nodes[parent - 1 := SequenceNode(tag, flow, items + [index])];
        case MappingNode(tag, flow, pairs) =>
          if pairs != [] {
            var p := pairs[|pairs| - 1];
            if p.key != 0 && p.value == 0 {
              nodes := nodes[parent - 1 := MappingNode(tag, flow, pairs[|pairs| - 1 := NodePair(p.key, index)])];
              return;
            }
          }
          nodes := nodes[parent - 1 := MappingNode(tag, flow, pairs + [NodePair(index, 0)])];
      }
    }

    /** `yaml_parser_load_alias` */
    method LoadAlias(name: Name) returns (ok: bool)
      requires YamlLoader.Step(View(), AliasEvent(name)) != Broken
      modifies `nodes, `error
      ensures Did(YamlLoader.Step(old(View()), AliasEvent(name)), ok)
      ensures ok ==> error == old(error)
    {
      var i := 0;
      while i < |aliases|
        invariant 0 <= i <= |aliases|
        invariant forall j :: 0 <= j < i ==> aliases[j].name != name
      {
        if aliases[i].name == name {
          assert FindAnchor(aliases, name) == i;
          AddNode(aliases[i].index);
          return true;
        }
        i := i + 1;
      }
      error := true;
      ok := false;
    }

    /** What loading a scalar, a sequence and a mapping have in common. */
    method LoadNew(node: Node, anchor: Option<Name>, ghost e: Event) returns (ok: bool)
      requires (e.ScalarEvent? || e.SequenceStart? || e.MappingStart?) && node == NodeOf(e) && anchor == AnchorIn(e)
      requires NewNode(View(), e) != Broken
      modifies `nodes, `aliases, `error
      ensures Did(NewNode(old(View()), e), ok)
      ensures ok ==> error == old(error)
      ensures ok ==> |nodes| == |old(nodes)| + 1 && (e.ScalarEvent? ==> nodes[|nodes| - 1] == node)
    {
      nodes := nodes + [node];
      var index := |nodes|;
      ok := RegisterAnchor(index, anchor);
      if ok {
        AddNode(index);
      }
    }

    /** `yaml_parser_load_scalar` */
    method LoadScalar(e: Event) returns (ok: bool)
      requires e.ScalarEvent? && YamlLoader.Step(View(), e) != Broken
      modifies `nodes, `aliases, `error
      ensures Did(YamlLoader.Step(old(View()), e), ok)
      ensures ok ==> error == old(error)
      ensures ok ==> |nodes| == |old(nodes)| + 1
      ensures ok ==> nodes[|nodes| - 1] == ScalarNode(Explicit(e.tag, "tag:yaml.org,2002:str"), e.value, e.style)
    {
      TagsExplicit(e.tag);
      hide Explicit;
      var tag := STR;
      if e.tag.Some? && e.tag.value != BANG {
        tag := e.tag.value;
      }
      ok := LoadNew(ScalarNode(tag, e.value, e.style), e.anchor, e);
    }

    /** `yaml_parser_load_sequence` */
    method LoadSequence(e: Event) returns (ok: bool)
      requires e.SequenceStart? && YamlLoader.Step(View(), e) != Broken
      modifies `nodes, `aliases, `ctx, `error
      ensures Did(YamlLoader.Step(old(View()), e), ok)
      ensures ok ==> error == old(error)
    {
      var tag := SEQ;
      if e.tag.Some? && e.tag.value != BANG {
        tag := e.tag.value;
      }
      var index := |nodes| + 1;
      ok := LoadNew(SequenceNode(tag, e.flow, []), e.anchor, e);
      if ok {
        ctx := ctx + [index];
      }
    }

    /** `yaml_parser_load_mapping` */
    method LoadMapping(e: Event) returns (ok: bool)
      requires e.MappingStart? && YamlLoader.Step(View(), e) != Broken
      modifies `nodes, `aliases, `ctx, `error
      ensures Did(YamlLoader.Step(old(View()), e), ok)
      ensures ok ==> error == old(error)
    {
      var tag := MAP;
      if e.tag.Some? && e.tag.value != BANG {
        tag := e.tag.value;
      }
      var index := |nodes| + 1;
      ok := LoadNew(MappingNode(tag, e.flow, []), e.anchor, e);
      if ok {
        ctx := ctx + [index];
      }
    }

    /** `yaml_parser_load_sequence_end` and `_mapping_end`: what the source asserts holds. */
    method LoadEnd(sequence: bool)
      requires CloseNode(View(), sequence).Loaded?
      modifies `ctx
      ensures CloseNode(old(View()), sequence) == Loaded(View())
    {
      assert |ctx| > 0;
      var index := ctx[|ctx| - 1];
      assert if sequence then nodes[index - 1].SequenceNode? else nodes[index - 1].MappingNode?;
      ctx := ctx[..|ctx| - 1];
    }

    /** One event of a node. */
    method LoadEvent(e: Event, ghost s: seq<Frame>) returns (ok: bool)
      requires YamlLoader.Inv(View(), s) && Accept(Inside(s), e).Some? && !e.DocumentEnd?
      modifies `nodes, `aliases, `ctx, `error
      ensures Did(YamlLoader.Step(old(View()), e), ok)
      ensures ok ==> error == old(error) && YamlLoader.Inv(View(), Accept(Inside(s), e).value.stack)
    {
      StepKeeps(View(), s, e);
      hide YamlLoader.Inv, NewNode, NodeAdd, CloseNode;
      ok := true;
      match e {
        case AliasEvent(name) => ok := LoadAlias(name);
        case ScalarEvent(_, _, _, _, _, _) => ok := LoadScalar(e);
        case SequenceStart(_, _, _, _) => ok := LoadSequence(e);
        case SequenceEnd => LoadEnd(true);
        case MappingStart(_, _, _, _) => ok := LoadMapping(e);
        case MappingEnd => LoadEnd(false);
      }
    }

    /** Where the loop of `LoadNodes` stands at `q`, having pulled `events` from `p` on. */
    ghost predicate PulledAt(p: Parsing.Parser, events: seq<Event>, q: Parsing.Parser)
      reads this
    {
      && !error && NoDocumentEnd(events) && Parsing.Inv(p) && Parsing.Inv(q) && Parsing.Grammar(q).Inside?
      && AcceptAll(Inside([Root]), events) == Some(Parsing.Grammar(q))
      && StepAll(START, events) == Loaded(View())
      && YamlLoader.Inv(View(), Parsing.Grammar(q).stack)
      && Parsing.Run(p) == Parsing.Log(events + Parsing.Run(q).events, Parsing.Run(q).last)
    }

    /** One more event, other than the end of the document. */
    method PullOne(ghost p: Parsing.Parser, ghost events: seq<Event>, event: Event, ghost q: Parsing.Parser)
      returns (ok: bool)
      requires Parsing.Inv(q) && Parsing.Step(q) == Parsing.Emit(event, parser.View()) && !event.DocumentEnd?
      requires PulledAt(p, events, q) && Parsing.Inv(parser.View()) && !parser.error
      modifies `nodes, `aliases, `ctx, `error
      ensures ok ==> PulledAt(p, events + [event], parser.View())
      ensures !ok ==> error
    {
      hide YamlLoader.Inv, Parsing.Inv, Parsing.Step, Parsing.Grammar;
      Parsing.StepAdvances(q);
      LogGrows(p, events, event, q);
      InsideStays(q, event);
      ok := LoadEvent(event, Parsing.Grammar(q).stack);
    }

    /** What a loaded document is, its events pulled from `p` on. */
    ghost predicate Composed(p: Parsing.Parser, events: seq<Event>, end: Event)
      reads this, parser
    {
      && !error && OneNode(events) && end.DocumentEnd?
      && StepAll(START, events).Loaded? && nodes == StepAll(START, events).l.nodes && nodes != [] && Closed(nodes)
      && Parsing.Inv(p) && Parsing.Inv(parser.View()) && Parsing.Grammar(parser.View()) == Between
      && Parsing.Run(p).events == events + [end] + Parsing.Run(parser.View()).events
    }

    /** `yaml_parser_load_nodes` */
    method LoadNodes(ghost p: Parsing.Parser) returns (ok: bool, ghost events: seq<Event>, ghost end: Event)
      requires parser.Ready() && !parser.error && Parsing.Grammar(parser.View()) == Inside([Root]) && p == parser.View()
      requires View() == START && !error
      modifies this, parser
      ensures parser.Ready()
      ensures ok ==> Composed(p, events, end) && !parser.error
      ensures !ok ==> error || parser.error
    {
      hide YamlLoader.Inv, Parsing.Inv, Parsing.Step, Parsing.Run;
      events, end := [], StreamEnd;
      StartPulled(p);
      while true
        invariant parser.Ready() && !parser.error && !error
        invariant PulledAt(p, events, parser.View())
        decreases Parsing.Potential(parser.View())
      {
        ghost var q := parser.View();
        InsideGoesOn(q);
        Parsing.StepAdvances(q);
        var event := parser.Parse();
        if event.None? {
          return false, events, end;
        }
        if event.value.DocumentEnd? {
          end := event.value;
          Finish(p, events, end, q);
          return true, events, end;
        }
        ok := PullOne(p, events, event.value, q);
        if !ok {
          return;
        }
        events := events + [event.value];
      }
    }

    lemma StartPulled(p: Parsing.Parser)
      requires View() == START && !error && Parsing.Inv(p) && Parsing.Grammar(p) == Inside([Root])
      ensures PulledAt(p, [], p)
    {
      hide Parsing.Run, Parsing.Inv;
      assert [] + Parsing.Run(p).events == Parsing.Run(p).events;
    }

    lemma Finish(p: Parsing.Parser, events: seq<Event>, end: Event, q: Parsing.Parser)
      requires PulledAt(p, events, q) && Parsing.Step(q) == Parsing.Emit(end, parser.View()) && end.DocumentEnd?
      requires Parsing.Inv(parser.View())
      ensures Composed(p, events, end)
    {
      Parsing.StepAdvances(q);
      LogGrows(p, events, end, q);
      EndOnlyAtRoot(q, end);
      EndsClosed(View());
    }

    /** `yaml_parser_load_document`: the aliases of an earlier document are gone. */
    method LoadDocument(event: Event, ghost p: Parsing.Parser)
      returns (ok: bool, ghost events: seq<Event>, ghost end: Event)
      requires event.DocumentStart? && p == parser.View()
      requires parser.Ready() && !parser.error && Parsing.Grammar(p) == Inside([Root]) && !error
      modifies this, parser
      ensures parser.Ready()
      ensures ok ==> Composed(p, events, end) && !parser.error
      ensures !ok ==> error || parser.error
    {
      nodes, aliases, ctx := [], [], [];
      ok, events, end := LoadNodes(p);
      aliases := [];
    }

    /** `yaml_parser_load`: the next document, or an empty one at the end of the stream. It must
        not be called after an error. */
    method Load() returns (ok: bool, ghost p: Parsing.Parser, ghost events: seq<Event>, ghost end: Event)
      requires parser.Ready() && !parser.error && !error
      requires !Parsing.Grammar(parser.View()).Inside?
      modifies this, parser
      ensures parser.Ready()
      ensures !ok ==> error || parser.error
      ensures ok ==> !error && !parser.error && !Parsing.Grammar(parser.View()).Inside?
      ensures ok && nodes == [] ==> Parsing.Grammar(parser.View()) == Finished
      ensures ok && nodes != [] ==> Composed(p, events, end)
    {
      hide YamlLoader.Inv, Parsing.Inv, Parsing.Step, Parsing.Run, Composer.Composed;
      nodes := [];
      p, events, end := parser.View(), [], StreamEnd;
      ok := true;
      if parser.state == Parsing.StreamStartS {
        Parsing.StepAdvances(parser.View());
        var event := parser.Parse();
        if event.None? {
          return false, p, events, end;
        }
        assert event.value.StreamStart?;
      }
      if parser.streamEndProduced {
        return;
      }
      Parsing.StepAdvances(parser.View());
      var event := parser.Parse();
      if event.None? {
        return false, p, events, end;
      }
      if event.value.StreamEnd? {
        return;
      }
      p := parser.View();
      ok, events, end := LoadDocument(event.value, p);
      ComposedIs(p, events, end);
    }

    lemma ComposedIs(p: Parsing.Parser, events: seq<Event>, end: Event)
      ensures Composed(p, events, end) ==> nodes != [] && Parsing.Grammar(parser.View()) == Between
    {
    }
  }

  lemma InsideStays(q: Parsing.Parser, e: Event)
    requires Parsing.Grammar(q).Inside? && !e.DocumentEnd? && Accept(Parsing.Grammar(q), e).Some?
    ensures Accept(Parsing.Grammar(q), e).value.Inside?
  {
  }

  lemma InsideGoesOn(q: Parsing.Parser)
    requires Parsing.Grammar(q).Inside?
    ensures q.state != Parsing.EndS
  {
  }

  lemma EndOnlyAtRoot(q: Parsing.Parser, e: Event)
    requires Parsing.Inv(q) && Parsing.Grammar(q).Inside? && e.DocumentEnd? && Accept(Parsing.Grammar(q), e).Some?
    ensures Parsing.Grammar(q) == Inside([RootDone]) && Accept(Parsing.Grammar(q), e).value == Between
  {
  }

  lemma LogGrows(p: Parsing.Parser, events: seq<Event>, e: Event, q: Parsing.Parser)
    requires Parsing.Inv(p) && Parsing.Inv(q) && Parsing.Step(q).Emit? && Parsing.Step(q).event == e
    requires Parsing.Inv(Parsing.Step(q).next)
    requires Parsing.Run(p) == Parsing.Log(events + Parsing.Run(q).events, Parsing.Run(q).last)
    ensures var next := Parsing.Step(q).next;
      Parsing.Run(p) == Parsing.Log(events + [e] + Parsing.Run(next).events, Parsing.Run(next).last)
  {
    var next := Parsing.Step(q).next;
    assert events + ([e] + Parsing.Run(next).events) == events + [e] + Parsing.Run(next).events;
  }
}
