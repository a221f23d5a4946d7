/**
 The dumper as the source has it: two recursive walks that update the emitter's table of
 anchors, the second one emitting events. Emitted events are collected in `out`.
 */
module YamlEmitter {
  import opened Bytes
  import opened YamlEvents
  import opened YamlGraph
  import opened YamlDumper

  class Emitter {
    const nodes: Graph
    // emitter->anchors[], field by field, and last_anchor_id
    var references: seq<nat>
    var anchor: seq<nat>
    var serialized: seq<bool>
    var lastAnchorId: nat
    var isOpen: bool
    var isClosed: bool
    var out: seq<Event>

    ghost predicate Table()
      reads this
    {
      |references| == |anchor| == |serialized| == |nodes|
    }

    ghost function Anchoring(): Anchoring
      reads this
    {
      YamlDumper.Anchoring.Anchoring(references, anchor, lastAnchorId)
    }

    /** The nodes the first walk has met. */
    ghost predicate Met(done: set<nat>)
      reads this
    {
      |references| == |nodes| && forall k :: 1 <= k <= |nodes| ==> (k in done <==> references[k - 1] > 0)
    }

    ghost predicate Serialized(done: set<nat>)
      reads this
    {
      |serialized| == |nodes| && forall k :: 1 <= k <= |nodes| ==> (k in done <==> serialized[k - 1])
    }

    constructor (nodes: Graph)
      ensures this.nodes == nodes && out == [] && !isOpen && !isClosed
    {
      this.nodes := nodes;
      references, anchor, serialized, lastAnchorId := [], [], [], 0;
      isOpen, isClosed, out := false, false, [];
    }

    method Emit(e: Event)
      modifies `out
      ensures out == old(out) + [e]
    {
      out := out + [e];
    }

    // -------------------------------------------------------------- the first walk

    /** Where the walk over the children `ks` stands, begun with `before` and `done`. */
    ghost predicate Anchored(ks: seq<nat>, before: Anchoring, done: set<nat>)
      requires Closed(nodes) && AllIn(nodes, ks) && |before.refs| == |before.ids| == |nodes|
      reads this
    {
      var w := VisitAll(nodes, ks, done);
      Table() && Met(w.done) && InRange(w.trace, |nodes|) && Anchoring() == TouchAll(before, w.trace)
    }

    lemma NothingAnchored(done: set<nat>)
      requires Closed(nodes) && Table() && Met(done)
      ensures Anchored([], Anchoring(), done)
    {
    }

    /** `yaml_emitter_anchor_node` */
    method AnchorNode(index: nat, ghost done: set<nat>)
      requires Closed(nodes) && InGraph(nodes, index) && Table() && Met(done)
      modifies `references, `anchor, `lastAnchorId
      ensures Anchored([index], old(Anchoring()), done)
      decreases Left(nodes, done), 0, 0
    {
      hide Children;
      ghost var before := Anchoring();
      ChildrenIn(nodes, index);
      hide Left, VisitAll, TouchAll, Closed;
      VisitOne(nodes, index, done);
      WalkInRange(nodes, index, done);
      references := references[index - 1 := references[index - 1] + 1];
      if references[index - 1] == 1 {
        LeftShrinks(nodes, done, done + {index});
        assert Anchoring() == Touch(before, index);
        AnchorChildren(index, done + {index});
        TouchOne(before, index);
        TouchConcat(before, [index], VisitAll(nodes, Children(nodes[index - 1]), done + {index}).trace);
      } else {
        if references[index - 1] == 2 {
          lastAnchorId := lastAnchorId + 1;
          anchor := anchor[index - 1 := lastAnchorId];
        }
        TouchOne(before, index);
      }
    }

    /** The children of a node met for the first time. */
    method AnchorChildren(index: nat, ghost done: set<nat>)
      requires Closed(nodes) && InGraph(nodes, index) && Table() && Met(done)
      modifies `references, `anchor, `lastAnchorId
      ensures Anchored(Children(nodes[index - 1]), old(Anchoring()), done)
      decreases Left(nodes, done), 2, 0
    {
      ghost var before := Anchoring();
      ChildrenIn(nodes, index);
      NothingAnchored(done);
      hide Left, VisitAll, TouchAll, Closed, Emitter.Anchored;
      match nodes[index - 1] {
        case SequenceNode(_, _, items) =>
          var i := 0;
          while i < |items|
            invariant 0 <= i <= |items| && AllIn(nodes, items) && Anchored(items[..i], before, done)
          {
            AnchorNext(items[..i], items[i], before, done);
            assert items[..i + 1] == items[..i] + [items[i]];
            i := i + 1;
          }
          assert items[..i] == items;
        case MappingNode(_, _, pairs) =>
          var i := 0;
          AllPairsIn(nodes, pairs, 0);
          while i < |pairs|
            invariant 0 <= i <= |pairs| && AllIn(nodes, PairChildren(pairs[..i]))
            invariant Anchored(PairChildren(pairs[..i]), before, done)
          {
            AllPairsIn(nodes, pairs, i + 1);
            NextPair(pairs, i);
            AnchorNext(PairChildren(pairs[..i]), pairs[i].key, before, done);
            AnchorNext(PairChildren(pairs[..i]) + [pairs[i].key], pairs[i].value, before, done);
            i := i + 1;
          }
          assert pairs[..i] == pairs;
        case ScalarNode(_, _, _) =>
      }
    }

    /** One more child. */
    method AnchorNext(ghost ks: seq<nat>, k: nat, ghost before: Anchoring, ghost done: set<nat>)
      requires Closed(nodes) && AllIn(nodes, ks) && InGraph(nodes, k)
      requires |before.refs| == |before.ids| == |nodes| && Anchored(ks, before, done)
      modifies `references, `anchor, `lastAnchorId
      ensures AllIn(nodes, ks + [k]) && Anchored(ks + [k], before, done)
      decreases Left(nodes, done), 1, 0
    {
      hide Left, VisitAll, TouchAll, Closed;
      ghost var w := VisitAll(nodes, ks, done);
      LeftShrinks(nodes, done, w.done);
      AnchorNode(k, w.done);
      VisitAllConcat(nodes, ks, [k], done);
      TouchConcat(before, w.trace, VisitAll(nodes, [k], w.done).trace);
    }

    // -------------------------------------------------------------- the second walk

    /** Where the dump of the nodes `ks` stands, begun with `before` and `done`. */
    ghost predicate Dumped(ks: seq<nat>, before: seq<Event>, done: set<nat>)
      requires Closed(nodes) && AllIn(nodes, ks)
      reads this
    {
      Table() &&
      var d := DumpAll(nodes, NamesOf(anchor), ks, done);
      out == before + d.events && Serialized(d.done)
    }

    lemma NothingDumped(done: set<nat>)
      requires Closed(nodes) && Table() && Serialized(done)
      ensures Dumped([], out, done)
    {
    }

    /** `yaml_emitter_dump_node` */
    method DumpNode(index: nat, ghost done: set<nat>)
      requires Closed(nodes) && InGraph(nodes, index) && Table() && Serialized(done)
      modifies `serialized, `out
      ensures Dumped([index], old(out), done)
      decreases Left(nodes, done), 0, 0
    {
      hide Left, DumpAll, Closed;
      ghost var before := out;
      ChildrenIn(nodes, index);
      DumpOne(nodes, NamesOf(anchor), index, done);
      var anchorId := anchor[index - 1];
      var name: Option<Name> := None;
      if anchorId != 0 {
        name := Some(AnchorName(anchorId));
      }
      if serialized[index - 1] {
        Emit(AliasEvent(AliasName(name)));
        return;
      }
      LeftShrinks(nodes, done, done + {index});
      serialized := serialized[index - 1 := true];
      var node := nodes[index - 1];
      DumpContent(index, name, done + {index});
    }

    /** `yaml_emitter_dump_scalar`, `_sequence` and `_mapping` */
    method DumpContent(index: nat, name: Option<Name>, ghost done: set<nat>)
      requires Closed(nodes) && InGraph(nodes, index) && Table() && Serialized(done)
      modifies `serialized, `out
      ensures Table()
      ensures var d := DumpAll(nodes, NamesOf(anchor), Children(nodes[index - 1]), done);
        && out == old(out) + ([Opening(nodes[index - 1], name)] + d.events + Closing(nodes[index - 1]))
        && Serialized(d.done)
      decreases Left(nodes, done), 2, 0
    {
      hide NamesOf;
      ghost var before := out;
      ChildrenIn(nodes, index);
      hide Left, DumpAll, Closed;
      match nodes[index - 1] {
        case ScalarNode(tag, value, style) =>
          var implicit := tag == STR;
          Emit(ScalarEvent(name, Some(tag), value, implicit, implicit, style));
          NothingBelow(nodes, NamesOf(anchor), done);
        case SequenceNode(tag, flow, items) =>
          var implicit := tag == SEQ;
          Emit(SequenceStart(name, Some(tag), implicit, flow));
          DumpItems(index, items, done);
          Emit(SequenceEnd);
          Regroup(before, [SequenceStart(name, Some(tag), implicit, flow)],
            DumpAll(nodes, NamesOf(anchor), items, done).events, [SequenceEnd]);
        case MappingNode(tag, flow, pairs) =>
          var implicit := tag == MAP;
          Emit(MappingStart(name, Some(tag), implicit, flow));
          DumpPairs(index, pairs, done);
          Emit(MappingEnd);
          Regroup(before, [MappingStart(name, Some(tag), implicit, flow)],
            DumpAll(nodes, NamesOf(anchor), PairChildren(pairs), done).events, [MappingEnd]);
      }
    }

    method DumpItems(index: nat, items: seq<nat>, ghost done: set<nat>)
      requires Closed(nodes) && AllIn(nodes, items) && Table() && Serialized(done)
      modifies `serialized, `out
      ensures Dumped(items, old(out), done)
      decreases Left(nodes, done), 1, 1
    {
      ghost var before := out;
      NothingDumped(done);
      hide Left, DumpAll, Closed, Emitter.Dumped;
      var i := 0;
      while i < |items|
        invariant 0 <= i <= |items| && Dumped(items[..i], before, done)
      {
        DumpNext(items[..i], items[i], before, done);
        assert items[..i + 1] == items[..i] + [items[i]];
        i := i + 1;
      }
      assert items[..i] == items;
    }

    method DumpPairs(index: nat, pairs: seq<NodePair>, ghost done: set<nat>)
      requires Closed(nodes) && AllIn(nodes, PairChildren(pairs)) && Table() && Serialized(done)
      requires forall j :: 0 <= j < |pairs| ==> pairs[j].value != 0
      modifies `serialized, `out
      ensures Dumped(PairChildren(pairs), old(out), done)
      decreases Left(nodes, done), 1, 1
    {
      ghost var before := out;
      NothingDumped(done);
      hide Left, DumpAll, Closed, Emitter.Dumped;
      var i := 0;
      AllPairsIn(nodes, pairs, 0);
      while i < |pairs|
        invariant 0 <= i <= |pairs| && AllIn(nodes, PairChildren(pairs[..i]))
        invariant Dumped(PairChildren(pairs[..i]), before, done)
      {
        AllPairsIn(nodes, pairs, i + 1);
        NextPair(pairs, i);
        DumpNext(PairChildren(pairs[..i]), pairs[i].key, before, done);
        DumpNext(PairChildren(pairs[..i]) + [pairs[i].key], pairs[i].value, before, done);
        i := i + 1;
      }
      assert pairs[..i] == pairs;
    }

    method DumpNext(ghost ks: seq<nat>, k: nat, ghost before: seq<Event>, ghost done: set<nat>)
      requires Closed(nodes) && AllIn(nodes, ks) && InGraph(nodes, k) && Dumped(ks, before, done)
      modifies `serialized, `out
      ensures AllIn(nodes, ks + [k]) && Dumped(ks + [k], before, done)
      decreases Left(nodes, done), 1, 0
    {
      hide Left, DumpAll, Closed;
      ghost var d := DumpAll(nodes, NamesOf(anchor), ks, done);
      LeftShrinks(nodes, done, d.done);
      DumpNode(k, d.done);
      DumpAllConcat(nodes, NamesOf(anchor), ks, [k], done);
    }

    // -------------------------------------------------------------- whole documents

    /** `yaml_emitter_dump`: a document's events, or the end of the stream for an empty one. */
    method DumpDocument(start: Event, end: Event)
      requires Closed(nodes) && start.DocumentStart? && end.DocumentEnd? && !isClosed
      modifies this
      ensures isOpen
      ensures var opening := if old(isOpen) then [] else [StreamStart];
        out == old(out) + opening +
          if nodes == [] then [StreamEnd]
          else [start] + YamlGraph.DumpNode(nodes, YamlDumper.Anchored(nodes), 1, {}).events + [end]
      ensures isClosed <==> nodes == []
    {
      hide Closed, YamlGraph.DumpNode;
      if !isOpen {
        Emit(StreamStart);
        isOpen := true;
      }
      if nodes == [] {
        Emit(StreamEnd);
        isClosed := true;
        return;
      }
      Emit(start);
      Prepare();
      ghost var before := out;
      DumpNode(1, {});
      DumpOne(nodes, YamlDumper.Anchored(nodes), 1, {});
      hide DumpAll;
      Emit(end);
    }

    /** The table is allocated and the first walk made. */
    method Prepare()
      requires Closed(nodes) && nodes != []
      modifies `references, `anchor, `lastAnchorId, `serialized
      ensures Table() && Serialized({}) && NamesOf(anchor) == YamlDumper.Anchored(nodes)
    {
      references, anchor, lastAnchorId := Zeros(|nodes|), Zeros(|nodes|), 0;
      serialized := seq(|nodes|, _ => false);
      AnchorNode(1, {});
      VisitOne(nodes, 1, {});
    }
  }

  lemma NothingBelow(g: Graph, anchors: Anchors, done: set<nat>)
    requires Closed(g) && |anchors| == |g|
    ensures DumpAll(g, anchors, [], done) == Dump([], [], done)
  {
  }

  lemma Regroup(a: seq<Event>, b: seq<Event>, c: seq<Event>, d: seq<Event>)
    ensures a + b + c + d == a + (b + c + d)
  {
  }

  lemma TouchOne(a: Anchoring, k: nat)
    requires |a.refs| == |a.ids| && 1 <= k <= |a.refs|
    ensures TouchAll(a, [k]) == Touch(a, k)
  {
    assert [k][..0] == [];
  }

  lemma NextPair(pairs: seq<NodePair>, i: nat)
    requires i < |pairs| && pairs[i].value != 0
    ensures PairChildren(pairs[..i + 1]) == PairChildren(pairs[..i]) + [pairs[i].key] + [pairs[i].value]
  {
    assert pairs[..i + 1][..i] == pairs[..i];
  }

  lemma {:induction false} AllPairsIn(g: Graph, pairs: seq<NodePair>, i: nat)
    requires AllIn(g, PairChildren(pairs)) && i <= |pairs|
    requires forall j :: 0 <= j < |pairs| ==> pairs[j].value != 0
    ensures AllIn(g, PairChildren(pairs[..i]))
    ensures i > 0 ==> InGraph(g, pairs[i - 1].key) && InGraph(g, pairs[i - 1].value)
    decreases |pairs|
  {
    if i == |pairs| {
      assert pairs[..i] == pairs;
      if i > 0 {
        var front := PairChildren(pairs[..i - 1]);
        assert PairChildren(pairs)[|front|] == pairs[i - 1].key;
        assert PairChildren(pairs)[|front| + 1] == pairs[i - 1].value;
      }
    } else {
      var m := |pairs| - 1;
      assert PairChildren(pairs)[..|PairChildren(pairs[..m])|] == PairChildren(pairs[..m]);
      AllPairsIn(g, pairs[..m], i);
      assert pairs[..m][..i] == pairs[..i];
    }
  }
}
