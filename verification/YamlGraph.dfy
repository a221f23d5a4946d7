/**
 The graph of nodes that a loaded YAML document is, and what walking it depth first meets.
 Nodes are numbered from 1; collections refer to their children by number, and a child may be
 shared, or be an ancestor.
 */
module YamlGraph {
  import opened Bytes
  import opened YamlEvents

  datatype NodePair = NodePair(key: nat, value: nat)

  datatype Node =
    | ScalarNode(tag: Name, value: Name, style: ScalarStyle)
    | SequenceNode(tag: Name, flow: bool, items: seq<nat>)
    | MappingNode(tag: Name, flow: bool, pairs: seq<NodePair>)

  // "tag:yaml.org,2002:" and then "str", "seq", "map"
  const YAML_TAG: Name := [116, 97, 103, 58, 121, 97, 109, 108, 46, 111, 114, 103, 44, 50, 48, 48, 50, 58]
  const STR: Name := YAML_TAG + [115, 116, 114]
  const SEQ: Name := YAML_TAG + [115, 101, 113]
  const MAP: Name := YAML_TAG + [109, 97, 112]

  /** Keys and values in turn; a pair whose value is still 0 is only a key. */
  function PairChildren(pairs: seq<NodePair>): seq<nat> {
    if pairs == [] then []
    else
      var p := pairs[|pairs| - 1];
      PairChildren(pairs[..|pairs| - 1]) + if p.value == 0 then [p.key] else [p.key, p.value]
  }

  function Children(n: Node): seq<nat> {
    match n
    case ScalarNode(_, _, _) => []
    case SequenceNode(_, _, items) => items
    case MappingNode(_, _, pairs) => PairChildren(pairs)
  }

  type Graph = seq<Node>

  predicate InGraph(g: Graph, k: nat) {
    1 <= k <= |g|
  }

  /** Every key has its value. */
  predicate Complete(n: Node) {
    n.MappingNode? ==> forall i :: 0 <= i < |n.pairs| ==> n.pairs[i].value != 0
  }

  predicate AllIn(g: Graph, ks: seq<nat>) {
    forall i :: 0 <= i < |ks| ==> InGraph(g, ks[i])
  }

  ghost predicate Closed(g: Graph) {
    forall k :: 0 <= k < |g| ==> AllIn(g, Children(g[k])) && Complete(g[k])
  }

  lemma ChildrenIn(g: Graph, k: nat)
    requires Closed(g) && InGraph(g, k)
    ensures AllIn(g, Children(g[k - 1])) && Complete(g[k - 1])
  {
  }

  // ---------------------------------------------------------------- depth first

  ghost function Numbers(g: Graph): set<nat> {
    set k: nat | k <= |g| && InGraph(g, k)
  }

  ghost function Left(g: Graph, done: set<nat>): nat {
    |Numbers(g) - done|
  }

  lemma LeftShrinks(g: Graph, done: set<nat>, more: set<nat>)
    requires done <= more
    ensures Left(g, more) <= Left(g, done)
    ensures forall k :: InGraph(g, k) && k !in done && k in more ==> Left(g, more) < Left(g, done)
  {
    var all := Numbers(g);
    Subset(all - more, all - done);
    if k :| InGraph(g, k) && k !in done && k in more {
      assert k in all - done && k !in all - more;
    }
  }

  lemma {:induction false} Subset(a: set<nat>, b: set<nat>)
    requires a <= b
    ensures |a| <= |b| && (a < b ==> |a| < |b|)
  {
    if b - a == {} {
      assert a == b;
    } else {
      var x :| x in b - a;
      Subset(a, b - {x});
    }
  }

  /** The numbers met, in order, and those met so far. */
  datatype Walk = Walk(trace: seq<nat>, done: set<nat>)

  /** Meets node `k`, and everything below it if this is the first time. */
  ghost function Visit(g: Graph, k: nat, done: set<nat>): (w: Walk)
    requires Closed(g) && InGraph(g, k)
    ensures done <= w.done && k in w.done
    decreases Left(g, done), 0, 0
  {
    if k in done then Walk([k], done)
    else
      LeftShrinks(g, done, done + {k});
      var w := VisitAll(g, Children(g[k - 1]), done + {k});
      Walk([k] + w.trace, w.done)
  }

  ghost function VisitAll(g: Graph, ks: seq<nat>, done: set<nat>): (w: Walk)
    requires Closed(g) && AllIn(g, ks)
    ensures done <= w.done
    decreases Left(g, done), 1, |ks|
  {
    if ks == [] then Walk([], done)
    else
      var v := Visit(g, ks[0], done);
      LeftShrinks(g, done, v.done);
      var w := VisitAll(g, ks[1..], v.done);
      Walk(v.trace + w.trace, w.done)
  }

  // ---------------------------------------------------------------- dumping

  /** The events, and beside each the number of the node it is about (0 for an end). */
  datatype Dump = Dump(events: seq<Event>, targets: seq<nat>, done: set<nat>)

  /** The first event of a node that is met for the first time. */
  function Opening(n: Node, anchor: Option<Name>): Event {
    match n
    case ScalarNode(tag, value, style) => ScalarEvent(anchor, Some(tag), value, tag == STR, tag == STR, style)
    case SequenceNode(tag, flow, _) => SequenceStart(anchor, Some(tag), tag == SEQ, flow)
    case MappingNode(tag, flow, _) => MappingStart(anchor, Some(tag), tag == MAP, flow)
  }

  function Closing(n: Node): seq<Event> {
    match n
    case ScalarNode(_, _, _) => []
    case SequenceNode(_, _, _) => [SequenceEnd]
    case MappingNode(_, _, _) => [MappingEnd]
  }

  /** The name of an alias; a node that was given no anchor would have an empty one. */
  function AliasName(anchor: Option<Name>): Name {
    if anchor.Some? then anchor.value else []
  }

  type Anchors = seq<Option<Name>>

  /** What dumping node `k` emits, the nodes in `done` having been dumped already and
      `anchors[k-1]` being the anchor given to node k. */
  ghost function DumpNode(g: Graph, anchors: Anchors, k: nat, done: set<nat>): (d: Dump)
    requires Closed(g) && InGraph(g, k) && |anchors| == |g|
    ensures done <= d.done && k in d.done
    decreases Left(g, done), 0, 0
  {
    if k in done then Dump([AliasEvent(AliasName(anchors[k - 1]))], [k], done)
    else
      LeftShrinks(g, done, done + {k});
      var n := g[k - 1];
      var d := DumpAll(g, anchors, Children(n), done + {k});
      Dump([Opening(n, anchors[k - 1])] + d.events + Closing(n), [k] + d.targets + (if n.ScalarNode? then [] else [0]),
        d.done)
  }

  ghost function DumpAll(g: Graph, anchors: Anchors, ks: seq<nat>, done: set<nat>): (d: Dump)
    requires Closed(g) && AllIn(g, ks) && |anchors| == |g|
    ensures done <= d.done
    decreases Left(g, done), 1, |ks|
  {
    if ks == [] then Dump([], [], done)
    else
      var v := DumpNode(g, anchors, ks[0], done);
      LeftShrinks(g, done, v.done);
      var w := DumpAll(g, anchors, ks[1..], v.done);
      Dump(v.events + w.events, v.targets + w.targets, w.done)
  }

  /** The targets that are nodes. */
  function Nodes(targets: seq<nat>): seq<nat> {
    if targets == [] then [] else (if targets[0] == 0 then [] else [targets[0]]) + Nodes(targets[1..])
  }

  lemma {:induction false} NodesConcat(a: seq<nat>, b: seq<nat>)
    ensures Nodes(a + b) == Nodes(a) + Nodes(b)
  {
    if a == [] {
      assert a + b == b;
    } else {
      assert (a + b)[1..] == a[1..] + b;
      NodesConcat(a[1..], b);
    }
  }

  /** Dumping meets the nodes exactly as the anchoring walk does. */
  lemma {:induction false} DumpMeets(g: Graph, anchors: Anchors, k: nat, done: set<nat>)
    requires Closed(g) && InGraph(g, k) && |anchors| == |g|
    ensures var d := DumpNode(g, anchors, k, done); var w := Visit(g, k, done);
      Nodes(d.targets) == w.trace && d.done == w.done
    decreases Left(g, done), 0, 0
  {
    if k in done {
      assert Nodes([k]) == [k] + Nodes([k][1..]);
    } else {
      LeftShrinks(g, done, done + {k});
      var n := g[k - 1];
      DumpAllMeets(g, anchors, Children(n), done + {k});
      var d := DumpAll(g, anchors, Children(n), done + {k});
      NodesConcat([k] + d.targets, if n.ScalarNode? then [] else [0]);
      NodesConcat([k], d.targets);
      assert Nodes([k]) == [k] + Nodes([k][1..]);
      assert Nodes([0]) == [] + Nodes([0][1..]);
    }
  }

  lemma {:induction false} DumpAllMeets(g: Graph, anchors: Anchors, ks: seq<nat>, done: set<nat>)
    requires Closed(g) && AllIn(g, ks) && |anchors| == |g|
    ensures var d := DumpAll(g, anchors, ks, done); var w := VisitAll(g, ks, done);
      Nodes(d.targets) == w.trace && d.done == w.done
    decreases Left(g, done), 1, |ks|
  {
    if ks != [] {
      DumpMeets(g, anchors, ks[0], done);
      var v := DumpNode(g, anchors, ks[0], done);
      LeftShrinks(g, done, v.done);
      DumpAllMeets(g, anchors, ks[1..], v.done);
      NodesConcat(v.targets, DumpAll(g, anchors, ks[1..], v.done).targets);
    }
  }

  // ---------------------------------------------------------------- no alias before its anchor

  /** The i-th event is the node's own the first time the node is met, and an alias after. */
  ghost predicate ToldAt(g: Graph, anchors: Anchors, d: Dump, done: set<nat>, i: nat)
    requires |anchors| == |g| && |d.events| == |d.targets| && i < |d.events|
  {
    var k := d.targets[i];
    if k == 0 then d.events[i] == SequenceEnd || d.events[i] == MappingEnd
    else
      && InGraph(g, k)
      && d.events[i] ==
        if k in done || k in d.targets[..i] then AliasEvent(AliasName(anchors[k - 1]))
        else Opening(g[k - 1], anchors[k - 1])
  }

  ghost predicate Told(g: Graph, anchors: Anchors, d: Dump, done: set<nat>)
    requires |anchors| == |g|
  {
    && |d.events| == |d.targets|
    && (forall i :: 0 <= i < |d.events| ==> ToldAt(g, anchors, d, done, i))
    && (forall k: nat :: k in d.done <==> k in done || (k != 0 && k in d.targets))
  }

  lemma ToldConcat(g: Graph, anchors: Anchors, a: Dump, b: Dump, done: set<nat>)
    requires |anchors| == |g| && Told(g, anchors, a, done) && Told(g, anchors, b, a.done)
    ensures Told(g, anchors, Dump(a.events + b.events, a.targets + b.targets, b.done), done)
  {
    var d := Dump(a.events + b.events, a.targets + b.targets, b.done);
    forall i | 0 <= i < |d.events| ensures ToldAt(g, anchors, d, done, i) {
      var n := |a.events|;
      if i < n {
        assert ToldAt(g, anchors, a, done, i);
        assert d.targets[..i] == a.targets[..i];
      } else {
        assert ToldAt(g, anchors, b, a.done, i - n);
        assert d.targets[..i] == a.targets + b.targets[..i - n];
      }
    }
  }

  lemma {:induction false} DumpTells(g: Graph, anchors: Anchors, k: nat, done: set<nat>)
    requires Closed(g) && InGraph(g, k) && |anchors| == |g|
    ensures Told(g, anchors, DumpNode(g, anchors, k, done), done)
    decreases Left(g, done), 0, 0
  {
    if k !in done {
      LeftShrinks(g, done, done + {k});
      var n := g[k - 1];
      DumpAllTells(g, anchors, Children(n), done + {k});
      var d := DumpAll(g, anchors, Children(n), done + {k});
      var first := Dump([Opening(n, anchors[k - 1])], [k], done + {k});
      var last := Dump(Closing(n), if n.ScalarNode? then [] else [0], d.done);
      assert Told(g, anchors, first, done);
      ToldConcat(g, anchors, first, d, done);
      assert Told(g, anchors, last, d.done);
      ToldConcat(g, anchors, Dump(first.events + d.events, first.targets + d.targets, d.done), last, done);
    }
  }

  lemma {:induction false} DumpAllTells(g: Graph, anchors: Anchors, ks: seq<nat>, done: set<nat>)
    requires Closed(g) && AllIn(g, ks) && |anchors| == |g|
    ensures Told(g, anchors, DumpAll(g, anchors, ks, done), done)
    decreases Left(g, done), 1, |ks|
  {
    if ks != [] {
      DumpTells(g, anchors, ks[0], done);
      var v := DumpNode(g, anchors, ks[0], done);
      LeftShrinks(g, done, v.done);
      DumpAllTells(g, anchors, ks[1..], v.done);
      ToldConcat(g, anchors, v, DumpAll(g, anchors, ks[1..], v.done), done);
    }
  }

  lemma {:induction false} VisitAllConcat(g: Graph, a: seq<nat>, b: seq<nat>, done: set<nat>)
    requires Closed(g) && AllIn(g, a) && AllIn(g, b)
    ensures AllIn(g, a + b)
    ensures var v := VisitAll(g, a, done); var w := VisitAll(g, b, v.done);
      VisitAll(g, a + b, done) == Walk(v.trace + w.trace, w.done)
    decreases |a|
  {
    hide Visit, Left, Children;
    if a == [] {
      assert a + b == b;
      assert [] + VisitAll(g, b, done).trace == VisitAll(g, b, done).trace;
    } else {
      assert (a + b)[1..] == a[1..] + b;
      var v := Visit(g, a[0], done);
      VisitAllConcat(g, a[1..], b, v.done);
      var rest := VisitAll(g, a[1..], v.done);
      assert v.trace + (rest.trace + VisitAll(g, b, rest.done).trace) ==
        v.trace + rest.trace + VisitAll(g, b, rest.done).trace;
    }
  }

  lemma VisitOne(g: Graph, k: nat, done: set<nat>)
    requires Closed(g) && InGraph(g, k)
    ensures VisitAll(g, [k], done) == Visit(g, k, done)
  {
    assert [k][1..] == [];
    var v := Visit(g, k, done);
    assert VisitAll(g, [], v.done) == Walk([], v.done);
    assert v.trace + [] == v.trace;
  }

  lemma {:induction false} DumpAllConcat(g: Graph, anchors: Anchors, a: seq<nat>, b: seq<nat>, done: set<nat>)
    requires Closed(g) && AllIn(g, a) && AllIn(g, b) && |anchors| == |g|
    ensures AllIn(g, a + b)
    ensures var v := DumpAll(g, anchors, a, done); var w := DumpAll(g, anchors, b, v.done);
      DumpAll(g, anchors, a + b, done) == Dump(v.events + w.events, v.targets + w.targets, w.done)
    decreases |a|
  {
    if a == [] {
      assert a + b == b;
    } else {
      assert (a + b)[1..] == a[1..] + b;
      var v := DumpNode(g, anchors, a[0], done);
      DumpAllConcat(g, anchors, a[1..], b, v.done);
      var rest := DumpAll(g, anchors, a[1..], v.done);
      var last := DumpAll(g, anchors, b, rest.done);
      assert v.events + (rest.events + last.events) == v.events + rest.events + last.events;
      assert v.targets + (rest.targets + last.targets) == v.targets + rest.targets + last.targets;
    }
  }

  lemma DumpOne(g: Graph, anchors: Anchors, k: nat, done: set<nat>)
    requires Closed(g) && InGraph(g, k) && |anchors| == |g|
    ensures DumpAll(g, anchors, [k], done) == DumpNode(g, anchors, k, done)
  {
    assert [k][1..] == [];
    var v := DumpNode(g, anchors, k, done);
    assert DumpAll(g, anchors, [], v.done) == Dump([], [], v.done);
    assert v.events + [] == v.events && v.targets + [] == v.targets;
  }
}
