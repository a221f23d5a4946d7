/**
 The loader: builds a document's graph from its events, and what dumping that graph gives back.
 */
module YamlLoader {
  import opened Bytes
  import opened YamlEvents
  import opened YamlGraph

  /** An anchor and the node it names. */
  datatype Anchor = Anchor(name: Name, index: nat)

  /** The document's nodes, the anchors seen so far, and the collections being filled. */
  datatype Loading = Loading(nodes: Graph, aliases: seq<Anchor>, ctx: seq<nat>)

  /** `Failed` is a composer error; `Broken` a failed assertion. */
  datatype Result = Loaded(l: Loading) | Failed | Broken

  const START: Loading := Loading([], [], [])
  const BANG: Name := [33]

  function TagOr(tag: Option<Name>, default: Name): Name {
    if tag.None? || tag.value == BANG then default else tag.value
  }

  /** The node that an event starts. */
  function NodeOf(e: Event): Node
    requires e.ScalarEvent? || e.SequenceStart? || e.MappingStart?
  {
    match e
    case ScalarEvent(_, tag, value, _, _, style) => ScalarNode(TagOr(tag, STR), value, style)
    case SequenceStart(_, tag, _, flow) => SequenceNode(TagOr(tag, SEQ), flow, [])
    case MappingStart(_, tag, _, flow) => MappingNode(TagOr(tag, MAP), flow, [])
  }

  function AnchorIn(e: Event): Option<Name> {
    match e
    case ScalarEvent(anchor, _, _, _, _, _) => anchor
    case SequenceStart(anchor, _, _, _) => anchor
    case MappingStart(anchor, _, _, _) => anchor
    case _ => None
  }

  function FindAnchor(aliases: seq<Anchor>, name: Name): (i: nat)
    ensures i <= |aliases| && (i < |aliases| ==> aliases[i].name == name)
    ensures forall j :: 0 <= j < i ==> aliases[j].name != name
  {
    if aliases == [] || aliases[0].name == name then 0 else 1 + FindAnchor(aliases[1..], name)
  }

  /** `yaml_parser_register_anchor`; None for a duplicate. */
  function Register(aliases: seq<Anchor>, index: nat, anchor: Option<Name>): Option<seq<Anchor>> {
    if anchor.None? then Some(aliases)
    else if FindAnchor(aliases, anchor.value) < |aliases| then None
    else Some(aliases + [Anchor(anchor.value, index)])
  }

  /** A collection with one more child: an item, a key, or the value of the last key. */
  function WithChild(n: Node, index: nat): Option<Node> {
    match n
    case ScalarNode(_, _, _) => None
    case SequenceNode(tag, flow, items) => Some(SequenceNode(tag, flow, items + [index]))
    case MappingNode(tag, flow, pairs) =>
      if pairs != [] && pairs[|pairs| - 1].key != 0 && pairs[|pairs| - 1].value == 0 then
        Some(MappingNode(tag, flow, pairs[|pairs| - 1 := NodePair(pairs[|pairs| - 1].key, index)]))
      else Some(MappingNode(tag, flow, pairs + [NodePair(index, 0)]))
  }

  /** `yaml_parser_load_node_add` */
  function NodeAdd(l: Loading, index: nat): Result {
    if l.ctx == [] then Loaded(l)
    else
      var parent := l.ctx[|l.ctx| - 1];
      if !InGraph(l.nodes, parent) then Broken
      else
        var n := WithChild(l.nodes[parent - 1], index);
        if n.None? then Broken else Loaded(l.(nodes := l.nodes[parent - 1 := n.value]))
  }

  /** A new node: pushed, its anchor registered, and added to its parent. */
  function NewNode(l: Loading, e: Event): Result
    requires e.ScalarEvent? || e.SequenceStart? || e.MappingStart?
  {
    var index := |l.nodes| + 1;
    var aliases := Register(l.aliases, index, AnchorIn(e));
    if aliases.None? then Failed
    else NodeAdd(Loading(l.nodes + [NodeOf(e)], aliases.value, l.ctx), index)
  }

  function CloseNode(l: Loading, sequence: bool): Result {
    if l.ctx == [] then Broken
    else
      var index := l.ctx[|l.ctx| - 1];
      if !InGraph(l.nodes, index) then Broken
      else if sequence != l.nodes[index - 1].SequenceNode? || l.nodes[index - 1].ScalarNode? then Broken
      else Loaded(l.(ctx := l.ctx[..|l.ctx| - 1]))
  }

  /** What one event does. */
  function Step(l: Loading, e: Event): Result {
    match e
    case AliasEvent(name) =>
      var i := FindAnchor(l.aliases, name);
      if i < |l.aliases| then NodeAdd(l, l.aliases[i].index) else Failed
    case ScalarEvent(_, _, _, _, _, _) => NewNode(l, e)
    case SequenceStart(_, _, _, _) => Entered(NewNode(l, e), |l.nodes| + 1)
    case MappingStart(_, _, _, _) => Entered(NewNode(l, e), |l.nodes| + 1)
    case SequenceEnd => CloseNode(l, true)
    case MappingEnd => CloseNode(l, false)
    case _ => Broken
  }

  function Entered(r: Result, index: nat): Result {
    if r.Loaded? then Loaded(r.l.(ctx := r.l.ctx + [index])) else r
  }

  function StepAll(l: Loading, events: seq<Event>): Result {
    if events == [] then Loaded(l)
    else
      var r := StepAll(l, events[..|events| - 1]);
      if r.Loaded? then Step(r.l, events[|events| - 1]) else r
  }

  // ---------------------------------------------------------------- no assertion fails

  /** Only the last pair of a mapping may still lack its value. */
  predicate Tidy(n: Node) {
    n.MappingNode? ==>
      forall i :: 0 <= i < |n.pairs| ==> n.pairs[i].key != 0 && (n.pairs[i].value == 0 ==> i == |n.pairs| - 1)
  }

  predicate Pending(n: Node) {
    n.MappingNode? && n.pairs != [] && n.pairs[|n.pairs| - 1].value == 0
  }

  predicate Fits(n: Node, f: Frame) {
    match f
    case Item => n.SequenceNode?
    case Key => n.MappingNode? && !Pending(n)
    case Value => n.MappingNode? && Pending(n)
    case _ => false
  }

  ghost predicate NodeOk(g: Graph, ctx: seq<nat>, k: nat) {
    k < |g| ==> Tidy(g[k]) && AllIn(g, Children(g[k])) && (Pending(g[k]) ==> k + 1 in ctx)
  }

  ghost predicate LevelOk(l: Loading, s: seq<Frame>, i: nat) {
    i < |l.ctx| == |s| - 1 ==> InGraph(l.nodes, l.ctx[i]) && Fits(l.nodes[l.ctx[i] - 1], s[i + 1])
  }

  /** The loader's state goes with the grammar's stack. */
  ghost predicate Inv(l: Loading, s: seq<Frame>) {
    && |s| == |l.ctx| + 1
    && (s[0] == Root || s[0] == RootDone) && (s[0] == Root <==> l.nodes == [])
    && (l.nodes == [] ==> l.ctx == [] && l.aliases == [])
    && (forall i :: LevelOk(l, s, i))
    && (forall i, j :: 0 <= i < j < |l.ctx| ==> l.ctx[i] < l.ctx[j])
    && (forall k :: NodeOk(l.nodes, l.ctx, k))
    && (forall i :: 0 <= i < |l.aliases| ==> InGraph(l.nodes, l.aliases[i].index))
  }

  lemma WithChildFits(n: Node, f: Frame, index: nat)
    requires Tidy(n) && Fits(n, f) && index != 0
    ensures WithChild(n, index).Some?
    ensures var m := WithChild(n, index).value;
      Tidy(m) && Fits(m, AfterNode(f)) && Children(m) == Children(n) + [index]
  {
    if n.MappingNode? {
      var m := WithChild(n, index).value;
      if Pending(n) {
        assert m.pairs[..|m.pairs| - 1] == n.pairs[..|n.pairs| - 1];
      } else {
        assert m.pairs[..|m.pairs| - 1] == n.pairs;
      }
    }
  }

  lemma AddKeeps(l: Loading, s: seq<Frame>, index: nat)
    requires Inv(l, s) && l.ctx != [] && TakesNode(s) && InGraph(l.nodes, index)
    ensures NodeAdd(l, index).Loaded?
    ensures var l' := NodeAdd(l, index).l; var p := l.ctx[|l.ctx| - 1];
      && InGraph(l.nodes, p) && Fits(l.nodes[p - 1], s[|s| - 1])
      && l' == l.(nodes := l.nodes[p - 1 := WithChild(l.nodes[p - 1], index).value])
      && Inv(l', NodeDone(s))
  {
    hide WithChild, Tidy, Fits, Children, Pending, AfterNode;
    var n := |l.ctx| - 1;
    var p := l.ctx[n];
    assert LevelOk(l, s, n);
    assert NodeOk(l.nodes, l.ctx, p - 1);
    WithChildFits(l.nodes[p - 1], s[n + 1], index);
    AddedKeep(l, s, WithChild(l.nodes[p - 1], index).value);
  }

  /** The top node may be replaced by one that is as it should be once a child has come. */
  lemma AddedKeep(l: Loading, s: seq<Frame>, m: Node)
    requires Inv(l, s) && l.ctx != [] && TakesNode(s) && InGraph(l.nodes, l.ctx[|l.ctx| - 1])
    requires Tidy(m) && AllIn(l.nodes, Children(m)) && Fits(m, AfterNode(s[|s| - 1]))
    ensures Inv(l.(nodes := l.nodes[l.ctx[|l.ctx| - 1] - 1 := m]), NodeDone(s))
  {
    var l' := l.(nodes := l.nodes[l.ctx[|l.ctx| - 1] - 1 := m]);
    AddedLevels(l, s, m, l', NodeDone(s));
    AddedNodes(l, s, m, l'.nodes);
    hide NodeOk, LevelOk, AllIn, Tidy, Fits, Children;
    NodeDoneKeeps(s);
  }

  lemma NodeDoneKeeps(s: seq<Frame>)
    requires |s| >= 2
    ensures |NodeDone(s)| == |s| && NodeDone(s)[0] == s[0]
  {
  }

  lemma AddedLevels(l: Loading, s: seq<Frame>, m: Node, l': Loading, s': seq<Frame>)
    requires Inv(l, s) && l.ctx != [] && TakesNode(s) && InGraph(l.nodes, l.ctx[|l.ctx| - 1])
    requires Fits(m, AfterNode(s[|s| - 1]))
    requires l' == l.(nodes := l.nodes[l.ctx[|l.ctx| - 1] - 1 := m]) && s' == NodeDone(s)
    ensures forall i: nat :: LevelOk(l', s', i)
  {
    hide Fits, NodeOk, AfterNode;
    forall i: nat ensures LevelOk(l', s', i) {
      assert LevelOk(l, s, i);
    }
  }

  lemma AddedNodes(l: Loading, s: seq<Frame>, m: Node, g: Graph)
    requires Inv(l, s) && l.ctx != [] && InGraph(l.nodes, l.ctx[|l.ctx| - 1])
    requires Tidy(m) && AllIn(l.nodes, Children(m)) && g == l.nodes[l.ctx[|l.ctx| - 1] - 1 := m]
    ensures forall k: nat :: NodeOk(g, l.ctx, k)
  {
    hide Tidy, Children, Pending, LevelOk, AllIn;
    var p := l.ctx[|l.ctx| - 1];
    forall k: nat ensures NodeOk(g, l.ctx, k) {
      assert NodeOk(l.nodes, l.ctx, k);
      assert p in l.ctx;
      if k < |g| {
        AllInSame(l.nodes, g, Children(g[k]));
      }
    }
  }

  lemma AllInSame(g: Graph, g': Graph, ks: seq<nat>)
    requires |g| == |g'|
    ensures AllIn(g, ks) <==> AllIn(g', ks)
  {
  }

  lemma PushKeeps(l: Loading, s: seq<Frame>, n: Node, aliases: seq<Anchor>)
    requires Inv(l, s) && Children(n) == [] && Tidy(n) && !Pending(n)
    requires forall i :: 0 <= i < |aliases| ==> 1 <= aliases[i].index <= |l.nodes| + 1
    ensures Inv(Loading(l.nodes + [n], aliases, l.ctx), if l.ctx == [] then [RootDone] else s)
  {
    var l' := Loading(l.nodes + [n], aliases, l.ctx);
    var s' := if l.ctx == [] then [RootDone] else s;
    forall i: nat ensures LevelOk(l', s', i) {
      assert LevelOk(l, s, i);
    }
    forall k: nat ensures NodeOk(l'.nodes, l'.ctx, k) {
      assert NodeOk(l.nodes, l.ctx, k);
    }
  }

  lemma NewKeeps(l: Loading, s: seq<Frame>, e: Event)
    requires Inv(l, s) && TakesNode(s) && (e.ScalarEvent? || e.SequenceStart? || e.MappingStart?)
    ensures NewNode(l, e) != Broken
    ensures NewNode(l, e).Loaded? ==> var l' := NewNode(l, e).l;
      && Inv(l', NodeDone(s)) && l'.ctx == l.ctx && |l'.nodes| == |l.nodes| + 1
      && l'.nodes[|l.nodes|] == NodeOf(e)
  {
    hide Inv, Tidy, Children, Pending, Fits, WithChild, Register, TakesNode, NodeDone, NodeOf;
    var index := |l.nodes| + 1;
    var aliases := Register(l.aliases, index, AnchorIn(e));
    if aliases.Some? {
      var l1 := Loading(l.nodes + [NodeOf(e)], aliases.value, l.ctx);
      NewIsEmpty(e);
      RegisteredIn(l, s, AnchorIn(e));
      PushKeeps(l, s, NodeOf(e), aliases.value);
      if l.ctx == [] {
        RootIsDone(l, s);
      } else {
        TopIn(l, s);
        AddKeeps(l1, s, index);
      }
    }
  }

  lemma NewIsEmpty(e: Event)
    requires e.ScalarEvent? || e.SequenceStart? || e.MappingStart?
    ensures Children(NodeOf(e)) == [] && Tidy(NodeOf(e)) && !Pending(NodeOf(e))
  {
  }

  lemma RegisteredIn(l: Loading, s: seq<Frame>, anchor: Option<Name>)
    requires Inv(l, s)
    ensures var r := Register(l.aliases, |l.nodes| + 1, anchor);
      r.Some? ==> forall i :: 0 <= i < |r.value| ==> 1 <= r.value[i].index <= |l.nodes| + 1
  {
    hide LevelOk, NodeOk;
  }

  lemma RootIsDone(l: Loading, s: seq<Frame>)
    requires Inv(l, s) && TakesNode(s) && l.ctx == []
    ensures NodeDone(s) == [RootDone]
  {
    hide LevelOk, NodeOk;
  }

  lemma TopIn(l: Loading, s: seq<Frame>)
    requires Inv(l, s) && l.ctx != []
    ensures InGraph(l.nodes, l.ctx[|l.ctx| - 1])
  {
    hide NodeOk;
    assert LevelOk(l, s, |l.ctx| - 1);
  }

  lemma EnterKeeps(l: Loading, s: seq<Frame>, f: Frame)
    requires Inv(l, s) && l.nodes != [] && Fits(l.nodes[|l.nodes| - 1], f)
    requires forall i :: 0 <= i < |l.ctx| ==> l.ctx[i] < |l.nodes|
    ensures Inv(l.(ctx := l.ctx + [|l.nodes|]), s + [f])
  {
    var l' := l.(ctx := l.ctx + [|l.nodes|]);
    forall i: nat ensures LevelOk(l', s + [f], i) {
      assert LevelOk(l, s, i);
    }
    forall k: nat ensures NodeOk(l'.nodes, l'.ctx, k) {
      assert NodeOk(l.nodes, l.ctx, k);
    }
  }

  lemma CloseKeeps(l: Loading, s: seq<Frame>, sequence: bool)
    requires Inv(l, s) && s[|s| - 1] == if sequence then Item else Key
    ensures CloseNode(l, sequence).Loaded? && Inv(CloseNode(l, sequence).l, s[..|s| - 1])
    ensures l.ctx != [] && CloseNode(l, sequence).l == l.(ctx := l.ctx[..|l.ctx| - 1])
  {
    var n := |l.ctx| - 1;
    assert n >= 0;
    assert LevelOk(l, s, n);
    var l', s' := l.(ctx := l.ctx[..n]), s[..|s| - 1];
    forall i: nat ensures LevelOk(l', s', i) {
      assert LevelOk(l, s, i);
    }
    forall k: nat ensures NodeOk(l'.nodes, l'.ctx, k) {
      assert NodeOk(l.nodes, l.ctx, k);
      if k < |l.nodes| && Pending(l.nodes[k]) {
        var i :| 0 <= i < |l.ctx| && l.ctx[i] == k + 1;
        assert i != n;
        assert l'.ctx[i] == k + 1;
      }
    }
  }

  /** On every event the grammar allows inside a document, no assertion of the loader fails
      and its state follows the grammar. */
  lemma StepKeeps(l: Loading, s: seq<Frame>, e: Event)
    requires Inv(l, s) && Accept(Inside(s), e).Some? && !e.DocumentEnd?
    ensures Step(l, e) != Broken
    ensures Step(l, e).Loaded? ==> Inv(Step(l, e).l, Accept(Inside(s), e).value.stack)
  {
    hide Inv;
    match e
    case AliasEvent(name) =>
      AliasKeeps(l, s, name);
    case ScalarEvent(_, _, _, _, _, _) =>
      NewKeeps(l, s, e);
    case SequenceStart(_, _, _, _) =>
      NewKeeps(l, s, e);
      StartKeeps(l, s, e, Item);
    case MappingStart(_, _, _, _) =>
      NewKeeps(l, s, e);
      StartKeeps(l, s, e, Key);
    case SequenceEnd =>
      CloseKeeps(l, s, true);
    case MappingEnd =>
      CloseKeeps(l, s, false);
  }

  lemma AliasKeeps(l: Loading, s: seq<Frame>, name: Name)
    requires Inv(l, s) && TakesNode(s)
    ensures Step(l, AliasEvent(name)) != Broken
    ensures Step(l, AliasEvent(name)).Loaded? ==> Inv(Step(l, AliasEvent(name)).l, NodeDone(s))
  {
    var i := FindAnchor(l.aliases, name);
    if i < |l.aliases| {
      if l.ctx != [] {
        AddKeeps(l, s, l.aliases[i].index);
      }
    }
  }

  lemma StartKeeps(l: Loading, s: seq<Frame>, e: Event, f: Frame)
    requires Inv(l, s) && TakesNode(s)
    requires (e.SequenceStart? && f == Item) || (e.MappingStart? && f == Key)
    ensures Step(l, e) != Broken
    ensures Step(l, e).Loaded? ==> Inv(Step(l, e).l, NodeDone(s) + [f])
  {
    NewKeeps(l, s, e);
    var r := NewNode(l, e);
    if r.Loaded? {
      forall i | 0 <= i < |l.ctx| ensures r.l.ctx[i] < |r.l.nodes| {
        assert LevelOk(l, s, i);
      }
      EnterKeeps(r.l, NodeDone(s), f);
    }
  }

  /** At the end of the document nothing is open, every key has its value, and every child is
      a node of the graph. */
  lemma EndsClosed(l: Loading)
    requires Inv(l, [RootDone])
    ensures l.ctx == [] && l.nodes != [] && Closed(l.nodes)
  {
    forall k | 0 <= k < |l.nodes| ensures AllIn(l.nodes, Children(l.nodes[k])) && Complete(l.nodes[k]) {
      assert NodeOk(l.nodes, l.ctx, k);
    }
  }
}
