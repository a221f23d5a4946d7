/**
 The graph the loader builds, told from the document's tree alone: which node stands for which
 part of the tree, what it says, and which nodes are its children.
 */
module YamlBuilt {
  import opened Bytes
  import opened YamlEvents
  import opened YamlGraph
  import opened YamlLoader
  import opened YamlRoundTrip

  /** The nodes a tree brings: one for everything but an alias. */
  function NodeCount(t: Tree): nat {
    match t
    case Leaf(e) => if e.AliasEvent? then 0 else 1
    case Collection(_, items) => 1 + NodesIn(items)
  }

  function NodesIn(items: seq<Tree>): nat {
    if items == [] then 0 else NodesIn(items[..|items| - 1]) + NodeCount(items[|items| - 1])
  }

  /** The anchor, if there is one, names node `k`. */
  predicate Names(names: map<Name, nat>, anchor: Option<Name>, k: nat) {
    anchor.Some? ==> anchor.value in names && names[anchor.value] == k
  }

  /** Node `k` stands for the tree `t`, `before` nodes having come before it. An alias is the
      node its name is the anchor of. Any other node is the next one, with the event's value,
      style and flow, its tag made explicit; a sequence has the nodes of its items in order, a
      mapping pairs them up as keys and values. */
  ghost predicate Stands(g: Graph, k: nat, t: Tree, before: nat, names: map<Name, nat>)
    decreases t, 1
  {
    InGraph(g, k) && ((t.Leaf? && t.event.AliasEvent?) || k == before + 1) &&
    match t
    case Leaf(AliasEvent(name)) => Names(names, Some(name), k)
    case Leaf(ScalarEvent(anchor, tag, value, _, _, style)) =>
      && Names(names, anchor, k)
      && g[k - 1] == ScalarNode(Explicit(tag, "tag:yaml.org,2002:str"), value, style)
    case Collection(SequenceStart(anchor, tag, _, flow), items) =>
      && Names(names, anchor, k)
      && g[k - 1].SequenceNode? && g[k - 1].tag == Explicit(tag, "tag:yaml.org,2002:seq") && g[k - 1].flow == flow
      && StandAll(g, g[k - 1].items, items, k, names)
    case Collection(MappingStart(anchor, tag, _, flow), items) =>
      && Names(names, anchor, k)
      && g[k - 1].MappingNode? && g[k - 1].tag == Explicit(tag, "tag:yaml.org,2002:map") && g[k - 1].flow == flow
      && StandAll(g, InTurn(g[k - 1].pairs), items, k, names)
    case _ => false
  }

  ghost predicate StandAll(g: Graph, ks: seq<nat>, items: seq<Tree>, before: nat, names: map<Name, nat>)
    decreases items, 0
  {
    |ks| == |items| &&
    forall i :: 0 <= i < |items| ==> Stands(g, ks[i], items[i], before + NodesIn(items[..i]), names)
  }

  /** The keys and values of the pairs in turn. */
  function InTurn(pairs: seq<NodePair>): (ks: seq<nat>)
    ensures |ks| == 2 * |pairs|
    ensures forall i :: 0 <= i < |pairs| ==> pairs[i] == NodePair(ks[2 * i], ks[2 * i + 1])
  {
    if pairs == [] then []
    else InTurn(pairs[..|pairs| - 1]) + [pairs[|pairs| - 1].key, pairs[|pairs| - 1].value]
  }

  lemma {:induction false} InTurnChildren(pairs: seq<NodePair>)
    requires forall i :: 0 <= i < |pairs| ==> pairs[i].value != 0
    ensures PairChildren(pairs) == InTurn(pairs)
  {
    if pairs != [] {
      InTurnChildren(pairs[..|pairs| - 1]);
    }
  }

  // ---------------------------------------------------------------- the anchors

  /** `names` has every anchor of the loader's. */
  ghost predicate Knows(names: map<Name, nat>, aliases: seq<Anchor>) {
    forall i :: 0 <= i < |aliases| ==> Names(names, Some(aliases[i].name), aliases[i].index)
  }

  ghost predicate OnceEach(aliases: seq<Anchor>) {
    forall i, j :: 0 <= i < j < |aliases| ==> aliases[i].name != aliases[j].name
  }

  function NamesIn(aliases: seq<Anchor>): map<Name, nat> {
    if aliases == [] then map[]
    else
      var a := aliases[|aliases| - 1];
      NamesIn(aliases[..|aliases| - 1])[a.name := a.index]
  }

  lemma {:induction false} NamesKnow(aliases: seq<Anchor>)
    requires OnceEach(aliases)
    ensures Knows(NamesIn(aliases), aliases)
  {
    if aliases != [] {
      var front := aliases[..|aliases| - 1];
      NamesKnow(front);
      forall i | 0 <= i < |aliases| ensures Names(NamesIn(aliases), Some(aliases[i].name), aliases[i].index) {
        if i < |front| {
          assert front[i] == aliases[i];
          assert Names(NamesIn(front), Some(front[i].name), front[i].index);
        }
      }
    }
  }

  lemma {:induction false} AnchorsOnce(events: seq<Event>)
    requires StepAll(START, events).Loaded?
    ensures OnceEach(StepAll(START, events).l.aliases)
  {
    hide Step;
    if events != [] {
      var n := |events| - 1;
      AnchorsOnce(events[..n]);
      StepAliases(StepAll(START, events[..n]).l, events[n]);
    }
  }

  lemma {:induction false} AnchorsStay(l: Loading, events: seq<Event>)
    requires StepAll(l, events).Loaded?
    ensures l.aliases <= StepAll(l, events).l.aliases
  {
    hide Step;
    if events != [] {
      var n := |events| - 1;
      AnchorsStay(l, events[..n]);
      StepAliases(StepAll(l, events[..n]).l, events[n]);
    }
  }

  lemma KnowsFewer(names: map<Name, nat>, few: seq<Anchor>, many: seq<Anchor>)
    requires Knows(names, many) && few <= many
    ensures Knows(names, few)
  {
  }

  // ---------------------------------------------------------------- what one node does

  lemma AliasStands(l: Loading, s: seq<Frame>, name: Name, g: Graph, names: map<Name, nat>)
    requires Inv(l, s) && TakesNode(s) && Step(l, AliasEvent(name)).Loaded?
    requires Knows(names, l.aliases) && |l.nodes| <= |g|
    ensures var k := TargetOf(l, AliasEvent(name)); var l' := Step(l, AliasEvent(name)).l;
      Grown(l, l', [k]) && |l'.nodes| == |l.nodes| && Stands(g, k, Leaf(AliasEvent(name)), |l.nodes|, names)
  {
    hide Inv, TakesNode, Grown;
    AliasGrows(l, s, name);
    var i := FindAnchor(l.aliases, name);
    assert Names(names, Some(l.aliases[i].name), l.aliases[i].index);
  }

  lemma NamedSoon(l: Loading, e: Event, names: map<Name, nat>)
    requires Step(l, e).Loaded? && Knows(names, Step(l, e).l.aliases)
    ensures Names(names, AnchorIn(e), TargetOf(l, e))
  {
    hide Step, TargetOf, AnchorIn;
    StepAliases(l, e);
    if AnchorIn(e).Some? {
      var a := Step(l, e).l.aliases;
      assert Names(names, Some(a[|a| - 1].name), a[|a| - 1].index);
    }
  }

  lemma ScalarStands(l: Loading, s: seq<Frame>, e: Event, g: Graph, names: map<Name, nat>)
    requires Inv(l, s) && TakesNode(s) && e.ScalarEvent? && Step(l, e).Loaded?
    requires Knows(names, Step(l, e).l.aliases) && Covers(g, l, Step(l, e).l)
    ensures var k := |l.nodes| + 1; var l' := Step(l, e).l;
      Grown(l, l', [k]) && |l'.nodes| == k && Stands(g, k, Leaf(e), |l.nodes|, names)
  {
    ScalarStep(l, e);
    NamedSoon(l, e, names);
    NewGrows(l, s, e);
    TagsExplicit(e.tag);
    hide Inv, TakesNode, Grown, Step, NewNode, Explicit, Knows, Names;
    assert g[|l.nodes|] == NodeOf(e);
  }

  /** A collection, once its items stand. */
  lemma CollectionStands(e: Event, items: seq<Tree>, g: Graph, k: nat, ks: seq<nat>, names: map<Name, nat>)
    requires e.SequenceStart? || e.MappingStart?
    requires InGraph(g, k) && SameHead(NodeOf(e), g[k - 1]) && Children(g[k - 1]) == ks && Complete(g[k - 1])
    requires Names(names, AnchorIn(e), k) && StandAll(g, ks, items, k, names)
    ensures Stands(g, k, Collection(e, items), k - 1, names)
  {
    hide StandAll, Explicit, Names;
    match e
    case SequenceStart(_, tag, _, _) => TagsExplicit(tag);
    case MappingStart(_, tag, _, _) =>
      TagsExplicit(tag);
      InTurnChildren(g[k - 1].pairs);
  }

  /** A node loaded after `l` stands for its tree in every graph that keeps what was loaded. */
  lemma {:induction false} TreeStands(l: Loading, s: seq<Frame>, t: Tree, g: Graph, names: map<Name, nat>)
    returns (k: nat)
    requires Inv(l, s) && TakesNode(s) && ProperTree(t) && StepAll(l, Flatten(t)).Loaded?
    requires Closed(g) && Covers(g, l, StepAll(l, Flatten(t)).l) && Knows(names, StepAll(l, Flatten(t)).l.aliases)
    ensures var l' := StepAll(l, Flatten(t)).l;
      Grown(l, l', [k]) && |l'.nodes| == |l.nodes| + NodeCount(t) && Stands(g, k, t, |l.nodes|, names)
    decreases t
  {
    hide StepAll, Step, Inv, ProperTree, Stands, Knows, Grown, Flatten, Covers, Closed, NodeDone;
    match t
    case Leaf(e) =>
      ProperLeaf(e);
      k := LeafStands(l, s, e, g, names);
    case Collection(e, items) =>
      ProperCollection(e, items);
      var l1, l2 := CollectionSteps(l, s, e, items);
      Inner(l, e, items, l1, l2, g, names);
      var ks := ItemsStand(l1, NodeDone(s), if e.SequenceStart? then Item else Key, items, g, names);
      k := Whole(l, s, e, items, l1, l2, ks, g, names);
  }

  lemma ProperLeaf(e: Event)
    requires ProperTree(Leaf(e))
    ensures (e.AliasEvent? || e.ScalarEvent?) && Flatten(Leaf(e)) == [e]
  {
  }

  lemma ProperCollection(e: Event, items: seq<Tree>)
    requires ProperTree(Collection(e, items))
    ensures (e.SequenceStart? || e.MappingStart?) && forall i :: 0 <= i < |items| ==> ProperTree(items[i])
  {
  }

  /** What holds of the graph and the anchors behind a collection's end holds inside it. */
  lemma Inner(l: Loading, e: Event, items: seq<Tree>, l1: Loading, l2: Loading, g: Graph, names: map<Name, nat>)
    requires (e.SequenceStart? || e.MappingStart?) && Step(l2, EndOf(e)).Loaded?
    requires StepAll(l1, FlattenItems(items)) == Loaded(l2) && l2.nodes == Step(l2, EndOf(e)).l.nodes
    requires |l.nodes| <= |l1.nodes| && Covers(g, l, Step(l2, EndOf(e)).l) && Knows(names, Step(l2, EndOf(e)).l.aliases)
    ensures Covers(g, l, l2) && Covers(g, l1, l2) && Knows(names, l2.aliases) && Knows(names, l1.aliases)
  {
    hide StepAll, Step, Knows, FlattenItems;
    StepAliases(l2, EndOf(e));
    AnchorsStay(l1, FlattenItems(items));
    KnowsFewer(names, l1.aliases, l2.aliases);
  }

  lemma LeafStands(l: Loading, s: seq<Frame>, e: Event, g: Graph, names: map<Name, nat>) returns (k: nat)
    requires Inv(l, s) && TakesNode(s) && (e.AliasEvent? || e.ScalarEvent?) && StepAll(l, [e]).Loaded?
    requires Covers(g, l, StepAll(l, [e]).l) && Knows(names, StepAll(l, [e]).l.aliases)
    ensures var l' := StepAll(l, [e]).l;
      Grown(l, l', [k]) && |l'.nodes| == |l.nodes| + NodeCount(Leaf(e)) && Stands(g, k, Leaf(e), |l.nodes|, names)
  {
    StepOne(l, e);
    StepCtx(l, e);
    StepAliases(l, e);
    hide StepAll, Step, Inv, TakesNode, Stands, Grown, Knows;
    if e.AliasEvent? {
      assert e == AliasEvent(e.name);
      k := TargetOf(l, e);
      AliasStands(l, s, e.name, g, names);
    } else {
      k := |l.nodes| + 1;
      ScalarStands(l, s, e, g, names);
    }
  }

  /** From the items of a collection to the whole of it. */
  lemma Whole(l: Loading, s: seq<Frame>, e: Event, items: seq<Tree>, l1: Loading, l2: Loading, ks: seq<nat>, g: Graph,
      names: map<Name, nat>) returns (k: nat)
    requires Inv(l, s) && TakesNode(s) && (e.SequenceStart? || e.MappingStart?) && Step(l, e) == Loaded(l1)
    requires Inv(l2, NodeDone(s) + [if e.SequenceStart? then Item else Key]) && Grown(l1, l2, ks)
    requires Closed(g) && Covers(g, l, l2) && Knows(names, l1.aliases)
    requires |l2.nodes| == |l1.nodes| + NodesIn(items) && StandAll(g, ks, items, |l1.nodes|, names)
    requires Step(l2, EndOf(e)) == StepAll(l, Flatten(Collection(e, items)))
    ensures StepAll(l, Flatten(Collection(e, items))) == Loaded(l2.(ctx := l.ctx))
    ensures Grown(l, l2.(ctx := l.ctx), [k]) && |l2.nodes| == |l.nodes| + NodeCount(Collection(e, items))
    ensures Stands(g, k, Collection(e, items), |l.nodes|, names)
  {
    hide Inv, TakesNode, Step, StepAll, Flatten, StandAll, Grown, Stands, Knows, SameHead, Children, NodeOf, Names;
    k := |l.nodes| + 1;
    StartGrows(l, s, e);
    CollectionCloses(l, s, e, l2, ks);
    CollectionGrows(l, s, e, l2, ks);
    StartTarget(l, e);
    NamedSoon(l, e, names);
    ChildrenIn(g, k);
    assert g[k - 1] == l2.nodes[k - 1];
    CollectionStands(e, items, g, k, ks, names);
  }

  lemma StartTarget(l: Loading, e: Event)
    requires e.SequenceStart? || e.MappingStart?
    ensures TargetOf(l, e) == |l.nodes| + 1
  {
  }

  lemma {:induction false} ItemsStand(l: Loading, s: seq<Frame>, f: Frame, items: seq<Tree>, g: Graph,
      names: map<Name, nat>) returns (ks: seq<nat>)
    requires Inv(l, s + [f]) && (f == Item || f == Key) && l.ctx != []
    requires (forall i :: 0 <= i < |items| ==> ProperTree(items[i])) && StepAll(l, FlattenItems(items)).Loaded?
    requires Closed(g) && Covers(g, l, StepAll(l, FlattenItems(items)).l)
    requires Knows(names, StepAll(l, FlattenItems(items)).l.aliases)
    ensures var l' := StepAll(l, FlattenItems(items)).l;
      && Grown(l, l', ks) && Inv(l', s + [Later(f, |items|)])
      && |l'.nodes| == |l.nodes| + NodesIn(items) && StandAll(g, ks, items, |l.nodes|, names)
    decreases items
  {
    hide NodeDone, TakesNode, Flatten, FlattenItems, Step, StepAll, ProperTree, Knows, Stands, StandAll, NodeCount, Inv,
      Grown, Covers, Later, Closed;
    if items == [] {
      ks := [];
      NoItemsStand(l, s, f, g, names);
    } else {
      var n := |items| - 1;
      var front, last := FlattenItems(items[..n]), Flatten(items[n]);
      ItemsSplit(items);
      StepAllConcat(l, front, last);
      ItemsKeep(l, s, f, items);
      FrontKeeps(l, s, f, items, n);
      var l1, l2 := StepAll(l, front).l, StepAll(l, front + last).l;
      AnchorsStay(l1, last);
      KnowsFewer(names, l1.aliases, l2.aliases);
      CoversAfter(g, l, l1, l2);
      var k := TreeStands(l1, s + [Later(f, n)], items[n], g, names);
      CoversBefore(g, l, l1, l2, [k]);
      var before := ItemsStand(l, s, f, items[..n], g, names);
      ks := before + [k];
      GrownAgain(l, l1, l2, before, [k]);
      StandsOneMore(g, before, items, k, |l.nodes|, names);
    }
  }

  lemma ItemsSplit(items: seq<Tree>)
    requires items != []
    ensures var n := |items| - 1; FlattenItems(items) == FlattenItems(items[..n]) + Flatten(items[n])
  {
  }

  lemma NoItemsStand(l: Loading, s: seq<Frame>, f: Frame, g: Graph, names: map<Name, nat>)
    requires Inv(l, s + [f]) && l.ctx != []
    ensures StepAll(l, FlattenItems([])) == Loaded(l) && Grown(l, l, []) && Later(f, 0) == f
    ensures StandAll(g, [], [], |l.nodes|, names)
  {
    NoItemsGrow(l, s + [f]);
  }

  lemma NoItemsGrow(l: Loading, s: seq<Frame>)
    requires Inv(l, s) && l.ctx != []
    ensures Grown(l, l, [])
  {
    assert LevelOk(l, s, |l.ctx| - 1);
  }

  lemma CoversAfter(g: Graph, l: Loading, l1: Loading, l2: Loading)
    requires Covers(g, l, l2) && |l.nodes| <= |l1.nodes|
    ensures Covers(g, l1, l2)
  {
  }

  lemma StandsOneMore(g: Graph, ks: seq<nat>, items: seq<Tree>, k: nat, before: nat, names: map<Name, nat>)
    requires items != [] && StandAll(g, ks, items[..|items| - 1], before, names)
    requires Stands(g, k, items[|items| - 1], before + NodesIn(items[..|items| - 1]), names)
    ensures StandAll(g, ks + [k], items, before, names)
  {
    hide Stands, NodesIn;
    var n := |items| - 1;
    forall i | 0 <= i < |items| ensures Stands(g, (ks + [k])[i], items[i], before + NodesIn(items[..i]), names) {
      if i < n {
        assert items[..n][..i] == items[..i] && items[..n][i] == items[i];
        assert Stands(g, ks[i], items[..n][i], before + NodesIn(items[..n][..i]), names);
      }
    }
  }

  // ---------------------------------------------------------------- whole documents

  /** What is loaded of a document is its tree: as many nodes as the tree brings, and node 1
      stands for the root, every alias for the node that its name is the anchor of. */
  lemma GraphStands(t: Tree) returns (names: map<Name, nat>)
    requires ProperTree(t) && StepAll(START, Flatten(t)).Loaded?
    ensures var g := StepAll(START, Flatten(t)).l.nodes;
      |g| == NodeCount(t) && Stands(g, 1, t, 0, names)
  {
    hide Stands, Knows, OnceEach, ProperTree;
    var l := StepAll(START, Flatten(t)).l;
    LoaderIsTotal(t);
    AnchorsOnce(Flatten(t));
    names := NamesIn(l.aliases);
    NamesKnow(l.aliases);
    assert Covers(l.nodes, START, l);
    var k := TreeStands(START, [Root], t, l.nodes, names);
    RootStands(l.nodes, k, t, names);
  }

  lemma RootStands(g: Graph, k: nat, t: Tree, names: map<Name, nat>)
    requires Stands(g, k, t, 0, names) && |g| == NodeCount(t)
    ensures k == 1
  {
    hide Explicit, StandAll;
  }
}
