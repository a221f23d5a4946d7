/**
 Loading a document and dumping it again gives back the document's events: the same tree,
 scalars, styles and alias positions, with the anchors renamed.
 */
module YamlRoundTrip {
  import opened Bytes
  import opened YamlEvents
  import opened YamlGraph
  import opened YamlLoader
  import YamlDumper

  /** The node an event is about: the one it starts, the one an alias stands for, or 0. */
  function TargetOf(l: Loading, e: Event): nat {
    match e
    case AliasEvent(name) =>
      var i := FindAnchor(l.aliases, name);
      if i < |l.aliases| then l.aliases[i].index else 0
    case ScalarEvent(_, _, _, _, _, _) => |l.nodes| + 1
    case SequenceStart(_, _, _, _) => |l.nodes| + 1
    case MappingStart(_, _, _, _) => |l.nodes| + 1
    case _ => 0
  }

  function Targets(l: Loading, events: seq<Event>): (ts: seq<nat>)
    ensures |ts| == |events|
  {
    if events == [] then []
    else
      var r := StepAll(l, events[..|events| - 1]);
      Targets(l, events[..|events| - 1]) + [if r.Loaded? then TargetOf(r.l, events[|events| - 1]) else 0]
  }

  /** A tag as a node has it: the default one if it is left out or `!`. */
  function Explicit(tag: Option<Name>, default: string): Name {
    if tag == None || tag == Some(Ascii("!")) then Ascii(default) else tag.value
  }

  /** The event that stands for `e` when its node's anchor has become `anchor`: tags are made
      explicit, the implicit flags say whether the tag is the default one, the rest is kept. */
  function Rewritten(e: Event, anchor: Option<Name>): Event {
    match e
    case AliasEvent(_) => AliasEvent(if anchor.Some? then anchor.value else [])
    case ScalarEvent(_, tag, value, _, _, style) =>
      var t := Explicit(tag, "tag:yaml.org,2002:str");
      var implicit := t == Explicit(None, "tag:yaml.org,2002:str");
      ScalarEvent(anchor, Some(t), value, implicit, implicit, style)
    case SequenceStart(_, tag, _, flow) =>
      var t := Explicit(tag, "tag:yaml.org,2002:seq");
      SequenceStart(anchor, Some(t), t == Explicit(None, "tag:yaml.org,2002:seq"), flow)
    case MappingStart(_, tag, _, flow) =>
      var t := Explicit(tag, "tag:yaml.org,2002:map");
      MappingStart(anchor, Some(t), t == Explicit(None, "tag:yaml.org,2002:map"), flow)
    case _ => e
  }

  lemma DefaultStr()
    ensures STR == Ascii("tag:yaml.org,2002:str")
  {
  }

  lemma DefaultSeq()
    ensures SEQ == Ascii("tag:yaml.org,2002:seq")
  {
  }

  lemma DefaultMap()
    ensures MAP == Ascii("tag:yaml.org,2002:map")
  {
  }

  lemma TagsExplicit(tag: Option<Name>)
    ensures TagOr(tag, STR) == Explicit(tag, "tag:yaml.org,2002:str")
    ensures TagOr(tag, SEQ) == Explicit(tag, "tag:yaml.org,2002:seq")
    ensures TagOr(tag, MAP) == Explicit(tag, "tag:yaml.org,2002:map")
  {
    assert BANG == Ascii("!");
    hide Ascii;
    DefaultStr();
    DefaultSeq();
    DefaultMap();
  }

  /** Dumping the node that an event starts, fresh from the loader, rewrites the event. */
  lemma OpeningRewrites(e: Event, anchor: Option<Name>)
    requires e.ScalarEvent? || e.SequenceStart? || e.MappingStart?
    ensures Opening(NodeOf(e), anchor) == Rewritten(e, anchor)
  {
    TagsExplicit(None);
    match e
    case ScalarEvent(_, tag, _, _, _, _) => TagsExplicit(tag);
    case SequenceStart(_, tag, _, _) => TagsExplicit(tag);
    case MappingStart(_, tag, _, _) => TagsExplicit(tag);
    hide Explicit;
  }

  function NewAnchor(anchors: Anchors, target: nat): Option<Name> {
    if 1 <= target <= |anchors| then anchors[target - 1] else None
  }

  function Renamed(events: seq<Event>, targets: seq<nat>, anchors: Anchors): (r: seq<Event>)
    requires |events| == |targets|
    ensures |r| == |events|
    ensures forall i :: 0 <= i < |r| ==> r[i] == Rewritten(events[i], NewAnchor(anchors, targets[i]))
  {
    if events == [] then []
    else [Rewritten(events[0], NewAnchor(anchors, targets[0]))] + Renamed(events[1..], targets[1..], anchors)
  }

  lemma RenamedConcat(a: seq<Event>, s: seq<nat>, b: seq<Event>, t: seq<nat>, anchors: Anchors)
    requires |a| == |s| && |b| == |t|
    ensures Renamed(a + b, s + t, anchors) == Renamed(a, s, anchors) + Renamed(b, t, anchors)
  {
  }

  lemma {:induction false} StepAllConcat(l: Loading, a: seq<Event>, b: seq<Event>)
    ensures StepAll(l, a + b) == if StepAll(l, a).Loaded? then StepAll(StepAll(l, a).l, b) else StepAll(l, a)
    ensures StepAll(l, a).Loaded? ==> Targets(l, a + b) == Targets(l, a) + Targets(StepAll(l, a).l, b)
  {
    if b == [] {
      assert a + b == a;
      if StepAll(l, a).Loaded? {
        assert Targets(l, a) + [] == Targets(l, a);
      }
    } else {
      assert (a + b)[..|a + b| - 1] == a + b[..|b| - 1];
      StepAllConcat(l, a, b[..|b| - 1]);
    }
  }

  lemma StepOne(l: Loading, e: Event)
    ensures StepAll(l, [e]) == Step(l, e)
    ensures Targets(l, [e]) == [TargetOf(l, e)]
  {
    assert [e][..0] == [];
  }

  ghost function UpTo(m: nat): set<nat> {
    if m == 0 then {} else UpTo(m - 1) + {m}
  }

  lemma {:induction false} InUpTo(m: nat, k: nat)
    ensures k in UpTo(m) <==> 1 <= k <= m
  {
    if m != 0 {
      InUpTo(m - 1, k);
    }
  }

  // ---------------------------------------------------------------- what loading a node adds

  predicate SameHead(n: Node, m: Node) {
    match n
    case ScalarNode(_, _, _) => m == n
    case SequenceNode(tag, flow, _) => m.SequenceNode? && m.tag == tag && m.flow == flow
    case MappingNode(tag, flow, _) => m.MappingNode? && m.tag == tag && m.flow == flow
  }

  function TopOf(l: Loading): nat {
    if l.ctx == [] then 0 else l.ctx[|l.ctx| - 1]
  }

  /** Between the two states the open collection has got the children `ks`, new nodes have
      come, and nothing else has changed. */
  ghost predicate Grown(l: Loading, l': Loading, ks: seq<nat>) {
    && l'.ctx == l.ctx && |l.nodes| <= |l'.nodes|
    && (forall k :: 0 <= k < |l.nodes| ==>
      (k + 1 != TopOf(l) ==> l'.nodes[k] == l.nodes[k]) && SameHead(l.nodes[k], l'.nodes[k]))
    && (l.ctx != [] ==>
          && InGraph(l.nodes, TopOf(l))
          && Children(l'.nodes[TopOf(l) - 1]) == Children(l.nodes[TopOf(l) - 1]) + ks)
  }

  lemma GrownAgain(l: Loading, l1: Loading, l2: Loading, a: seq<nat>, b: seq<nat>)
    requires Grown(l, l1, a) && Grown(l1, l2, b)
    ensures Grown(l, l2, a + b)
  {
    forall k | 0 <= k < |l.nodes|
      ensures (k + 1 != TopOf(l) ==> l2.nodes[k] == l.nodes[k]) && SameHead(l.nodes[k], l2.nodes[k])
    {
      assert SameHead(l.nodes[k], l1.nodes[k]) && SameHead(l1.nodes[k], l2.nodes[k]);
    }
    hide SameHead;
    if l.ctx != [] {
      AssocNat(Children(l.nodes[TopOf(l) - 1]), a, b);
    }
  }

  lemma AssocNat(a: seq<nat>, b: seq<nat>, c: seq<nat>)
    ensures a + b + c == a + (b + c)
  {
  }

  lemma AliasGrows(l: Loading, s: seq<Frame>, name: Name)
    requires Inv(l, s) && TakesNode(s) && Step(l, AliasEvent(name)).Loaded?
    ensures Grown(l, Step(l, AliasEvent(name)).l, [TargetOf(l, AliasEvent(name))])
    ensures |Step(l, AliasEvent(name)).l.nodes| == |l.nodes|
    ensures 1 <= TargetOf(l, AliasEvent(name)) <= |l.nodes|
  {
    var i := FindAnchor(l.aliases, name);
    if l.ctx != [] {
      AddKeeps(l, s, l.aliases[i].index);
      ChildAdded(l, s, l.aliases[i].index);
    }
  }

  lemma ChildAdded(l: Loading, s: seq<Frame>, index: nat)
    requires Inv(l, s) && l.ctx != [] && TakesNode(s) && InGraph(l.nodes, index)
    ensures NodeAdd(l, index).Loaded? && Grown(l, NodeAdd(l, index).l, [index])
  {
    hide TakesNode, NodeDone, WithChild, Tidy, Fits, SameHead, Children, NodeAdd;
    AddKeeps(l, s, index);
    var n := |l.ctx| - 1;
    var p := l.ctx[n];
    assert NodeOk(l.nodes, l.ctx, p - 1);
    WithChildFits(l.nodes[p - 1], s[n + 1], index);
    WithChildHead(l.nodes[p - 1], index);
    hide Inv;
    ChildGrown(l, WithChild(l.nodes[p - 1], index).value, index);
  }

  lemma WithChildHead(n: Node, index: nat)
    requires WithChild(n, index).Some?
    ensures SameHead(n, WithChild(n, index).value)
  {
  }

  lemma SameHeadItself(n: Node)
    ensures SameHead(n, n)
  {
  }

  /** The top node has got one more child. */
  lemma ChildGrown(l: Loading, m: Node, index: nat)
    requires l.ctx != [] && InGraph(l.nodes, TopOf(l)) && SameHead(l.nodes[TopOf(l) - 1], m)
    requires Children(m) == Children(l.nodes[TopOf(l) - 1]) + [index]
    ensures Grown(l, l.(nodes := l.nodes[TopOf(l) - 1 := m]), [index])
  {
    hide SameHead, Children;
    forall k | 0 <= k < |l.nodes| ensures SameHead(l.nodes[k], l.nodes[k]) {
      SameHeadItself(l.nodes[k]);
    }
  }

  lemma NewGrows(l: Loading, s: seq<Frame>, e: Event)
    requires Inv(l, s) && TakesNode(s) && (e.ScalarEvent? || e.SequenceStart? || e.MappingStart?)
    requires NewNode(l, e).Loaded?
    ensures Grown(l, NewNode(l, e).l, [|l.nodes| + 1])
    ensures |NewNode(l, e).l.nodes| == |l.nodes| + 1 && NewNode(l, e).l.nodes[|l.nodes|] == NodeOf(e)
  {
    hide Inv, TakesNode, NodeDone, Grown, Children, Tidy, Pending, NodeOf, Register, Fits;
    NewKeeps(l, s, e);
    var index := |l.nodes| + 1;
    var aliases := Register(l.aliases, index, AnchorIn(e)).value;
    var l1 := Loading(l.nodes + [NodeOf(e)], aliases, l.ctx);
    if l.ctx == [] {
      PushGrows(l, l1, l1, NodeOf(e), [index]);
    } else {
      NewIsEmpty(e);
      RegisteredIn(l, s, AnchorIn(e));
      PushKeeps(l, s, NodeOf(e), aliases);
      TopIn(l, s);
      ChildAdded(l1, s, index);
      PushGrows(l, l1, NodeAdd(l1, index).l, NodeOf(e), [index]);
    }
  }

  /** What grew behind a new node grew behind the nodes before it. */
  lemma PushGrows(l: Loading, l1: Loading, l2: Loading, n: Node, ks: seq<nat>)
    requires l1.nodes == l.nodes + [n] && l1.ctx == l.ctx
    requires if l.ctx == [] then l2 == l1 else InGraph(l.nodes, TopOf(l)) && Grown(l1, l2, ks)
    ensures Grown(l, l2, ks)
  {
    hide SameHead, Children;
    forall k | 0 <= k < |l.nodes| ensures SameHead(l.nodes[k], l.nodes[k]) {
      SameHeadItself(l.nodes[k]);
    }
    assert forall k :: 0 <= k < |l.nodes| ==> l1.nodes[k] == l.nodes[k];
  }

  // ---------------------------------------------------------------- dumping what was loaded

  /** `g` has the nodes that came between the two states, as the later one has them. */
  ghost predicate Covers(g: Graph, l: Loading, l': Loading) {
    |l'.nodes| <= |g| && forall k :: |l.nodes| <= k < |l'.nodes| ==> g[k] == l'.nodes[k]
  }

  /** Dumping `k` after the nodes of `l` gives back the events, and takes in those of `l'`. */
  ghost predicate DumpsTo(g: Graph, anchors: Anchors, d: Dump, l: Loading, events: seq<Event>) {
    StepAll(l, events).Loaded? &&
    var ts := Targets(l, events);
    d == Dump(Renamed(events, ts, anchors), ts, UpTo(|StepAll(l, events).l.nodes|))
  }

  lemma AliasDumps(l: Loading, s: seq<Frame>, name: Name, g: Graph, anchors: Anchors)
    requires Inv(l, s) && TakesNode(s) && Step(l, AliasEvent(name)).Loaded?
    requires Closed(g) && |anchors| == |g| && |l.nodes| <= |g|
    ensures var k := TargetOf(l, AliasEvent(name));
      InGraph(g, k) && DumpsTo(g, anchors, DumpNode(g, anchors, k, UpTo(|l.nodes|)), l, [AliasEvent(name)])
  {
    var e := AliasEvent(name);
    var k := TargetOf(l, e);
    AliasGrows(l, s, name);
    StepOne(l, e);
    InUpTo(|l.nodes|, k);
    assert Renamed([e], [k], anchors) == [Rewritten(e, NewAnchor(anchors, k))];
  }

  lemma DumpScalar(e: Event, k: nat, g: Graph, anchors: Anchors)
    requires e.ScalarEvent? && Closed(g) && InGraph(g, k) && |anchors| == |g| && g[k - 1] == NodeOf(e)
    ensures DumpNode(g, anchors, k, UpTo(k - 1)) == Dump(Renamed([e], [k], anchors), [k], UpTo(k))
  {
    hide Rewritten, Explicit;
    OpeningRewrites(e, anchors[k - 1]);
    InUpTo(k - 1, k);
    assert DumpAll(g, anchors, [], UpTo(k - 1) + {k}) == Dump([], [], UpTo(k - 1) + {k});
    assert Renamed([e], [k], anchors) == [Rewritten(e, NewAnchor(anchors, k))];
    assert [Opening(g[k - 1], anchors[k - 1])] + [] + [] == [Opening(g[k - 1], anchors[k - 1])];
    assert [k] + [] + [] == [k];
  }

  lemma ScalarStep(l: Loading, e: Event)
    requires e.ScalarEvent?
    ensures Step(l, e) == NewNode(l, e) && TargetOf(l, e) == |l.nodes| + 1
  {
  }

  lemma DumpsOne(g: Graph, anchors: Anchors, d: Dump, l: Loading, e: Event, k: nat)
    requires StepAll(l, [e]).Loaded? && Targets(l, [e]) == [k] && |StepAll(l, [e]).l.nodes| == k
    requires d == Dump(Renamed([e], [k], anchors), [k], UpTo(k))
    ensures DumpsTo(g, anchors, d, l, [e])
  {
    hide StepAll, Targets, Renamed, UpTo;
  }

  lemma ScalarDumps(l: Loading, s: seq<Frame>, e: Event, g: Graph, anchors: Anchors)
    requires Inv(l, s) && TakesNode(s) && e.ScalarEvent? && Step(l, e).Loaded?
    requires Closed(g) && |anchors| == |g| && Covers(g, l, Step(l, e).l)
    ensures var k := |l.nodes| + 1;
      InGraph(g, k) && DumpsTo(g, anchors, DumpNode(g, anchors, k, UpTo(|l.nodes|)), l, [e])
  {
    hide Inv, TakesNode, Grown, Step, NewNode, DumpNode, UpTo, Closed, Renamed, Targets, StepAll, TargetOf, DumpsTo,
      NodeOf;
    ScalarStep(l, e);
    NewGrows(l, s, e);
    StepOne(l, e);
    assert g[|l.nodes|] == NodeOf(e);
    DumpScalar(e, |l.nodes| + 1, g, anchors);
    DumpsOne(g, anchors, DumpNode(g, anchors, |l.nodes| + 1, UpTo(|l.nodes|)), l, e, |l.nodes| + 1);
  }

  /** The start of a collection: its node is new, and is the open one. */
  lemma StartGrows(l: Loading, s: seq<Frame>, e: Event)
    requires Inv(l, s) && TakesNode(s) && (e.SequenceStart? || e.MappingStart?) && Step(l, e).Loaded?
    ensures var l1 := Step(l, e).l; var k := |l.nodes| + 1;
      && l1.ctx == l.ctx + [k] && |l1.nodes| == k && l1.nodes[k - 1] == NodeOf(e)
      && Grown(l, l1.(ctx := l.ctx), [k])
      && Inv(l1, NodeDone(s) + [if e.SequenceStart? then Item else Key])
  {
    NewGrows(l, s, e);
    StartKeeps(l, s, e, if e.SequenceStart? then Item else Key);
    NewKeeps(l, s, e);
  }

  function EndOf(e: Event): Event {
    if e.SequenceStart? then SequenceEnd else MappingEnd
  }

  /** Loading a collection, its items being loaded from `l1` to `l2`. */
  lemma CollectionLoads(l: Loading, e: Event, inner: seq<Event>, l1: Loading, l2: Loading)
    requires (e.SequenceStart? || e.MappingStart?) && Step(l, e) == Loaded(l1)
    requires StepAll(l1, inner) == Loaded(l2) && Step(l2, EndOf(e)) == Loaded(l2.(ctx := l.ctx))
    ensures StepAll(l, [e] + inner + [EndOf(e)]) == Loaded(l2.(ctx := l.ctx))
    ensures Targets(l, [e] + inner + [EndOf(e)]) == [|l.nodes| + 1] + Targets(l1, inner) + [0]
  {
    StepOne(l, e);
    StepAllConcat(l, [e], inner);
    StepAllConcat(l, [e] + inner, [EndOf(e)]);
    StepOne(l2, EndOf(e));
    hide Step, StepAll;
  }

  lemma CollectionCloses(l: Loading, s: seq<Frame>, e: Event, l2: Loading, ks: seq<nat>)
    requires Inv(l, s) && TakesNode(s) && (e.SequenceStart? || e.MappingStart?) && Step(l, e).Loaded?
    requires Grown(Step(l, e).l, l2, ks)
    requires Inv(l2, NodeDone(s) + [if e.SequenceStart? then Item else Key])
    ensures Step(l2, EndOf(e)) == Loaded(l2.(ctx := l.ctx))
    ensures Inv(l2.(ctx := l.ctx), NodeDone(s))
  {
    assert s != [];
    hide Inv, Grown, NodeDone, TakesNode, Step;
    StartGrows(l, s, e);
    var f := if e.SequenceStart? then Item else Key;
    OpenTop(l, e, l2, ks, |l.nodes| + 1);
    hide CloseNode, EndOf;
    Closes(l2, NodeDone(s), e.SequenceStart?);
    Ending(l2, e);
  }

  lemma Closes(l: Loading, s: seq<Frame>, sequence: bool)
    requires Inv(l, s + [if sequence then Item else Key]) && l.ctx != []
    ensures var l' := l.(ctx := l.ctx[..|l.ctx| - 1]);
      CloseNode(l, sequence) == Loaded(l') && Inv(l', s)
  {
    hide Inv, CloseNode;
    var s2 := s + [if sequence then Item else Key];
    assert s2[..|s2| - 1] == s;
    CloseKeeps(l, s2, sequence);
  }

  lemma OpenTop(l: Loading, e: Event, l2: Loading, ks: seq<nat>, k: nat)
    requires Step(l, e).Loaded? && Step(l, e).l.ctx == l.ctx + [k] && Grown(Step(l, e).l, l2, ks)
    ensures l2.ctx == l.ctx + [k] && l2.ctx[..|l2.ctx| - 1] == l.ctx
  {
  }

  lemma Ending(l: Loading, e: Event)
    requires e.SequenceStart? || e.MappingStart?
    ensures Step(l, EndOf(e)) == CloseNode(l, e.SequenceStart?)
  {
  }

  lemma CollectionGrows(l: Loading, s: seq<Frame>, e: Event, l2: Loading, ks: seq<nat>)
    requires Inv(l, s) && TakesNode(s) && (e.SequenceStart? || e.MappingStart?) && Step(l, e).Loaded?
    requires Grown(Step(l, e).l, l2, ks)
    ensures Grown(l, l2.(ctx := l.ctx), [|l.nodes| + 1])
    ensures |l.nodes| < |l2.nodes| && SameHead(NodeOf(e), l2.nodes[|l.nodes|]) && Children(l2.nodes[|l.nodes|]) == ks
  {
    hide Inv, NodeDone, TakesNode, Step, Grown, SameHead, Children;
    StartGrows(l, s, e);
    NothingInside(e);
    GrownThrough(l, Step(l, e).l, l2, |l.nodes| + 1, ks);
  }

  lemma NothingInside(e: Event)
    requires e.SequenceStart? || e.MappingStart?
    ensures Children(NodeOf(e)) == []
  {
  }

  /** What grew inside a new node `k` leaves the outer nodes as `k` alone does. */
  lemma GrownThrough(l: Loading, l1: Loading, l2: Loading, k: nat, ks: seq<nat>)
    requires l1.ctx == l.ctx + [k] && |l1.nodes| == k == |l.nodes| + 1
    requires Grown(l, l1.(ctx := l.ctx), [k]) && Grown(l1, l2, ks) && Children(l1.nodes[k - 1]) == []
    ensures Grown(l, l2.(ctx := l.ctx), [k])
    ensures |l.nodes| < |l2.nodes| && SameHead(l1.nodes[k - 1], l2.nodes[k - 1]) && Children(l2.nodes[k - 1]) == ks
  {
    assert TopOf(l1) == k && [] + ks == ks;
    hide Children;
    if l.ctx != [] {
      assert TopOf(l) <= |l.nodes|;
    }
    forall i | 0 <= i < |l.nodes|
      ensures (i + 1 != TopOf(l) ==> l2.nodes[i] == l.nodes[i]) && SameHead(l.nodes[i], l2.nodes[i])
    {
      assert l2.nodes[i] == l1.nodes[i];
    }
  }

  /** Dumping a collection, its items being dumped to `inner`. */
  lemma DumpCollection(e: Event, k: nat, inner: seq<Event>, ts: seq<nat>, done: set<nat>, g: Graph, anchors: Anchors)
    requires (e.SequenceStart? || e.MappingStart?) && Closed(g) && InGraph(g, k) && |anchors| == |g|
    requires SameHead(NodeOf(e), g[k - 1]) && |inner| == |ts|
    requires DumpAll(g, anchors, Children(g[k - 1]), UpTo(k)) == Dump(Renamed(inner, ts, anchors), ts, done)
    ensures DumpNode(g, anchors, k, UpTo(k - 1)) ==
      Dump(Renamed([e] + inner + [EndOf(e)], [k] + ts + [0], anchors), [k] + ts + [0], done)
  {
    hide SameHead, NodeOf, Closed;
    InUpTo(k - 1, k);
    RenamedCollection(e, k, inner, ts, anchors);
    Headed(e, g[k - 1], anchors[k - 1]);
    hide Renamed, Opening, Closing, NodeOf, SameHead;
    assert UpTo(k) == UpTo(k - 1) + {k};
  }

  lemma Headed(e: Event, n: Node, anchor: Option<Name>)
    requires (e.SequenceStart? || e.MappingStart?) && SameHead(NodeOf(e), n)
    ensures Opening(n, anchor) == Rewritten(e, anchor) && Closing(n) == [EndOf(e)] && !n.ScalarNode?
  {
    hide Rewritten, Explicit;
    OpeningRewrites(e, anchor);
  }

  lemma RenamedCollection(e: Event, k: nat, inner: seq<Event>, ts: seq<nat>, anchors: Anchors)
    requires (e.SequenceStart? || e.MappingStart?) && |inner| == |ts|
    ensures Renamed([e] + inner + [EndOf(e)], [k] + ts + [0], anchors)
      == [Rewritten(e, NewAnchor(anchors, k))] + Renamed(inner, ts, anchors) + [EndOf(e)]
  {
    RenamedConcat([e], [k], inner, ts, anchors);
    RenamedConcat([e] + inner, [k] + ts, [EndOf(e)], [0], anchors);
    assert Renamed([e], [k], anchors) == [Rewritten(e, NewAnchor(anchors, k))];
    assert Renamed([EndOf(e)], [0], anchors) == [EndOf(e)];
  }

  lemma LeafComes(l: Loading, s: seq<Frame>, e: Event, g: Graph, anchors: Anchors)
    requires Inv(l, s) && TakesNode(s) && ProperTree(Leaf(e)) && StepAll(l, [e]).Loaded?
    requires Closed(g) && |anchors| == |g| && Covers(g, l, StepAll(l, [e]).l)
    ensures Comes(l, s, [e], g, anchors)
  {
    StepOne(l, e);
    hide Comes, StepAll, Inv, TakesNode;
    if e.AliasEvent? {
      assert e == AliasEvent(e.name);
      StepCtx(l, e);
      AliasComes(l, s, e.name, g, anchors);
    } else {
      ScalarComes(l, s, e, g, anchors);
    }
  }

  /** The states of the loader behind a collection's start, and behind its items. */
  lemma CollectionSteps(l: Loading, s: seq<Frame>, e: Event, items: seq<Tree>) returns (l1: Loading, l2: Loading)
    requires Inv(l, s) && TakesNode(s) && ProperTree(Collection(e, items))
    requires StepAll(l, Flatten(Collection(e, items))).Loaded?
    ensures Step(l, e) == Loaded(l1) && StepAll(l1, FlattenItems(items)) == Loaded(l2)
    ensures Step(l2, EndOf(e)) == StepAll(l, Flatten(Collection(e, items)))
    ensures Inv(l1, NodeDone(s) + [if e.SequenceStart? then Item else Key]) && l1.ctx != []
    ensures |l.nodes| <= |l1.nodes| && l2.nodes == Step(l2, EndOf(e)).l.nodes
    ensures Later(if e.SequenceStart? then Item else Key, |items|) == if e.SequenceStart? then Item else Key
  {
    var inner := FlattenItems(items);
    StepOne(l, e);
    StepAllConcat(l, [e], inner);
    StepAllConcat(l, [e] + inner, [EndOf(e)]);
    StartGrows(l, s, e);
    l1 := Step(l, e).l;
    l2 := StepAll(l1, inner).l;
    StepCtx(l, e);
    LastStep(l2, EndOf(e));
  }

  lemma ComesAs(
      l: Loading, s: seq<Frame>, events: seq<Event>, g: Graph, anchors: Anchors, l': Loading, ts: seq<nat>)
    requires Closed(g) && |anchors| == |g| && s != [] && ts != [] && InGraph(g, ts[0])
    requires StepAll(l, events) == Loaded(l') && Targets(l, events) == ts
    requires Grown(l, l', [ts[0]]) && Inv(l', NodeDone(s))
    requires DumpNode(g, anchors, ts[0], UpTo(|l.nodes|)) == Dump(Renamed(events, ts, anchors), ts, UpTo(|l'.nodes|))
    ensures Comes(l, s, events, g, anchors)
  {
    hide Closed, StepAll, Targets, Grown, Inv, NodeDone, DumpNode, UpTo, Renamed;
  }

  /** From the items of a collection to the whole of it. */
  lemma CollectionComes(
      l: Loading, s: seq<Frame>, e: Event, items: seq<Tree>, l1: Loading, l2: Loading, ks: seq<nat>, g: Graph,
      anchors: Anchors)
    requires Inv(l, s) && TakesNode(s) && ProperTree(Collection(e, items))
    requires Step(l, e) == Loaded(l1) && StepAll(l1, FlattenItems(items)) == Loaded(l2)
    requires Step(l2, EndOf(e)).Loaded? && Step(l2, EndOf(e)) == StepAll(l, Flatten(Collection(e, items)))
    requires Closed(g) && |anchors| == |g| && Covers(g, l, Step(l2, EndOf(e)).l) && AllIn(g, ks)
    requires Grown(l1, l2, ks) && Inv(l2, NodeDone(s) + [if e.SequenceStart? then Item else Key])
    requires DumpsTo(g, anchors, DumpAll(g, anchors, ks, UpTo(|l1.nodes|)), l1, FlattenItems(items))
    ensures Comes(l, s, Flatten(Collection(e, items)), g, anchors)
  {
    var inner, k := FlattenItems(items), |l.nodes| + 1;
    assert Flatten(Collection(e, items)) == [e] + inner + [EndOf(e)];
    assert e.SequenceStart? || e.MappingStart?;
    hide Step, StepAll, Inv, Grown, TakesNode, NodeDone, ProperTree, Flatten, FlattenItems, Targets, SameHead, Renamed,
      DumpNode, DumpAll, Closed, UpTo, NodeOf, Comes, EndOf, Children;
    StartGrows(l, s, e);
    CollectionCloses(l, s, e, l2, ks);
    CollectionLoads(l, e, inner, l1, l2);
    CollectionGrows(l, s, e, l2, ks);
    assert g[k - 1] == l2.nodes[k - 1];
    DumpCollection(e, k, inner, Targets(l1, inner), UpTo(|l2.nodes|), g, anchors);
    ComesAs(l, s, [e] + inner + [EndOf(e)], g, anchors, l2.(ctx := l.ctx), [k] + Targets(l1, inner) + [0]);
  }

  /** The heart of the round trip: a node loaded after `l` and dumped after the nodes of `l`
      gives back its events. */
  lemma {:induction false} TreeDumps(l: Loading, s: seq<Frame>, t: Tree, g: Graph, anchors: Anchors)
    requires Inv(l, s) && TakesNode(s) && ProperTree(t) && StepAll(l, Flatten(t)).Loaded?
    requires Closed(g) && |anchors| == |g| && Covers(g, l, StepAll(l, Flatten(t)).l)
    ensures Comes(l, s, Flatten(t), g, anchors)
    decreases t
  {
    match t
    case Leaf(e) =>
      LeafComes(l, s, e, g, anchors);
    case Collection(e, items) =>
      var l1, l2 := CollectionSteps(l, s, e, items);
      hide StepAll, Step, Inv, TakesNode, Comes, ProperTree;
      var ks := ItemsDump(l1, NodeDone(s), if e.SequenceStart? then Item else Key, items, g, anchors);
      CollectionComes(l, s, e, items, l1, l2, ks, g, anchors);
  }

  /** An end changes no node. */
  lemma LastStep(l: Loading, end: Event)
    ensures (end.SequenceEnd? || end.MappingEnd?) && Step(l, end).Loaded? ==> Step(l, end).l.nodes == l.nodes
  {
  }

  /** What is said of a node with the events `events`, loaded after `l` and then dumped. */
  ghost predicate Comes(l: Loading, s: seq<Frame>, events: seq<Event>, g: Graph, anchors: Anchors)
    requires Closed(g) && |anchors| == |g| && s != []
  {
    StepAll(l, events).Loaded? &&
    var l' := StepAll(l, events).l; var ts := Targets(l, events);
    && ts != [] && InGraph(g, ts[0]) && Grown(l, l', [ts[0]]) && Inv(l', NodeDone(s))
    && DumpsTo(g, anchors, DumpNode(g, anchors, ts[0], UpTo(|l.nodes|)), l, events)
  }

  lemma AliasComes(l: Loading, s: seq<Frame>, name: Name, g: Graph, anchors: Anchors)
    requires Inv(l, s) && TakesNode(s) && Step(l, AliasEvent(name)).Loaded?
    requires Closed(g) && |anchors| == |g| && |l.nodes| <= |g|
    ensures Comes(l, s, [AliasEvent(name)], g, anchors)
  {
    var e := AliasEvent(name);
    hide Inv, Grown, DumpsTo, DumpNode, Accept, NodeDone, TakesNode, StepAll, Step, Targets, TargetOf;
    StepOne(l, e);
    LeafFollows(s, e);
    StepKeeps(l, s, e);
    AliasGrows(l, s, name);
    AliasDumps(l, s, name, g, anchors);
  }

  lemma ScalarComes(l: Loading, s: seq<Frame>, e: Event, g: Graph, anchors: Anchors)
    requires Inv(l, s) && TakesNode(s) && e.ScalarEvent? && Step(l, e).Loaded?
    requires Closed(g) && |anchors| == |g| && Covers(g, l, Step(l, e).l)
    ensures Comes(l, s, [e], g, anchors)
  {
    assert Step(l, e) == NewNode(l, e) && TargetOf(l, e) == |l.nodes| + 1;
    hide Inv, Grown, DumpsTo, DumpNode, Accept, NodeDone, TakesNode, StepAll, Step, Targets, TargetOf;
    StepOne(l, e);
    LeafFollows(s, e);
    StepKeeps(l, s, e);
    NewGrows(l, s, e);
    ScalarDumps(l, s, e, g, anchors);
  }

  lemma LeafFollows(s: seq<Frame>, e: Event)
    requires TakesNode(s) && (e.AliasEvent? || e.ScalarEvent?)
    ensures Accept(Inside(s), e) == Some(Inside(NodeDone(s)))
  {
  }

  lemma {:induction false} ItemsDump(l: Loading, s: seq<Frame>, f: Frame, items: seq<Tree>, g: Graph, anchors: Anchors)
    returns (ks: seq<nat>)
    requires Inv(l, s + [f]) && (f == Item || f == Key) && l.ctx != []
    requires (forall i :: 0 <= i < |items| ==> ProperTree(items[i])) && StepAll(l, FlattenItems(items)).Loaded?
    requires Closed(g) && |anchors| == |g| && Covers(g, l, StepAll(l, FlattenItems(items)).l)
    ensures var l' := StepAll(l, FlattenItems(items)).l;
      && AllIn(g, ks) && Grown(l, l', ks) && Inv(l', s + [Later(f, |items|)])
      && DumpsTo(g, anchors, DumpAll(g, anchors, ks, UpTo(|l.nodes|)), l, FlattenItems(items))
    decreases items
  {
    hide DumpNode, DumpAll, NodeDone, TakesNode, Flatten, Step, ProperTree, UpTo;
    if items == [] {
      ks := [];
      NoItems(l, s + [f], g, anchors);
    } else {
      var n := |items| - 1;
      var front, last := FlattenItems(items[..n]), Flatten(items[n]);
      StepAllConcat(l, front, last);
      FrontKeeps(l, s, f, items, n);
      var l1 := StepAll(l, front).l;
      hide Inv;
      TreeDumps(l1, s + [Later(f, n)], items[n], g, anchors);
      CoversBefore(g, l, l1, StepAll(l1, last).l, [Targets(l1, last)[0]]);
      var before := ItemsDump(l, s, f, items[..n], g, anchors);
      ks := before + [Targets(l1, last)[0]];
      hide Grown, Covers;
      OneMoreItem(l, front, last, before, g, anchors);
    }
  }

  /** Before its last item is read, a collection stands ready for one more. */
  lemma FrontKeeps(l: Loading, s: seq<Frame>, f: Frame, items: seq<Tree>, n: nat)
    requires Inv(l, s + [f]) && (f == Item || f == Key) && l.ctx != [] && n < |items|
    requires (forall i :: 0 <= i < |items| ==> ProperTree(items[i])) && StepAll(l, FlattenItems(items[..n])).Loaded?
    ensures var l1 := StepAll(l, FlattenItems(items[..n])).l;
      && Inv(l1, s + [Later(f, n)]) && l1.ctx == l.ctx && |l.nodes| <= |l1.nodes| && TopOf(l1) <= |l.nodes|
      && TakesNode(s + [Later(f, n)]) && NodeDone(s + [Later(f, n)]) == s + [Later(f, n + 1)]
  {
    ItemsKeep(l, s, f, items[..n]);
    NodesGrow(l, FlattenItems(items[..n]));
    LaterOnce(f, n);
    NodeDoneAt(s, Later(f, n));
    assert LevelOk(l, s + [f], |l.ctx| - 1);
  }

  lemma NoItems(l: Loading, s: seq<Frame>, g: Graph, anchors: Anchors)
    requires Inv(l, s) && l.ctx != [] && Closed(g) && |anchors| == |g|
    ensures Grown(l, l, []) && DumpsTo(g, anchors, DumpAll(g, anchors, [], UpTo(|l.nodes|)), l, [])
  {
    assert LevelOk(l, s, |l.ctx| - 1);
  }

  lemma CoversBefore(g: Graph, l: Loading, l1: Loading, l2: Loading, ks: seq<nat>)
    requires Covers(g, l, l2) && |l.nodes| <= |l1.nodes| && Grown(l1, l2, ks) && TopOf(l1) <= |l.nodes|
    ensures Covers(g, l, l1)
  {
  }

  lemma OneMoreItem(l: Loading, front: seq<Event>, last: seq<Event>, before: seq<nat>, g: Graph, anchors: Anchors)
    requires Closed(g) && |anchors| == |g| && AllIn(g, before) && StepAll(l, front + last).Loaded?
    requires StepAll(l, front).Loaded? && StepAll(StepAll(l, front).l, last) == StepAll(l, front + last)
    requires DumpsTo(g, anchors, DumpAll(g, anchors, before, UpTo(|l.nodes|)), l, front)
    requires var l1 := StepAll(l, front).l; var ts := Targets(l1, last);
      && ts != [] && InGraph(g, ts[0])
      && DumpsTo(g, anchors, DumpNode(g, anchors, ts[0], UpTo(|l1.nodes|)), l1, last)
      && Grown(l, l1, before) && Grown(l1, StepAll(l1, last).l, [ts[0]])
    ensures var ks := before + [Targets(StepAll(l, front).l, last)[0]];
      && AllIn(g, ks) && Grown(l, StepAll(l, front + last).l, ks)
      && DumpsTo(g, anchors, DumpAll(g, anchors, ks, UpTo(|l.nodes|)), l, front + last)
  {
    var l1 := StepAll(l, front).l;
    var k := Targets(l1, last)[0];
    GrownAgain(l, l1, StepAll(l1, last).l, before, [k]);
    hide Grown, Inv;
    StepAllConcat(l, front, last);
    DumpAllConcat(g, anchors, before, [k], UpTo(|l.nodes|));
    DumpOne(g, anchors, k, UpTo(|l1.nodes|));
    RenamedConcat(front, Targets(l, front), last, Targets(l1, last), anchors);
  }

  /** What a step does to the open collections, and that it takes no node away. */
  lemma StepCtx(l: Loading, e: Event)
    requires Step(l, e).Loaded?
    ensures |l.nodes| <= |Step(l, e).l.nodes|
    ensures var c := Step(l, e).l.ctx;
      if e.SequenceStart? || e.MappingStart? then c == l.ctx + [|l.nodes| + 1]
      else if e.SequenceEnd? || e.MappingEnd? then l.ctx != [] && c == l.ctx[..|l.ctx| - 1]
      else c == l.ctx
  {
  }

  lemma {:induction false} NodesGrow(l: Loading, events: seq<Event>)
    requires StepAll(l, events).Loaded?
    ensures |l.nodes| <= |StepAll(l, events).l.nodes|
  {
    if events != [] {
      NodesGrow(l, events[..|events| - 1]);
      StepCtx(StepAll(l, events[..|events| - 1]).l, events[|events| - 1]);
    }
  }

  lemma {:induction false} TreeCtx(l: Loading, t: Tree)
    requires ProperTree(t) && StepAll(l, Flatten(t)).Loaded?
    ensures StepAll(l, Flatten(t)).l.ctx == l.ctx
    decreases t
  {
    match t
    case Leaf(e) =>
      StepOne(l, e);
      StepCtx(l, e);
    case Collection(e, items) =>
      var inner := FlattenItems(items);
      StepOne(l, e);
      StepAllConcat(l, [e], inner);
      StepAllConcat(l, [e] + inner, [EndOf(e)]);
      StepCtx(l, e);
      ItemsCtx(Step(l, e).l, items);
      StepOne(StepAll(l, [e] + inner).l, EndOf(e));
      StepCtx(StepAll(l, [e] + inner).l, EndOf(e));
  }

  lemma {:induction false} ItemsCtx(l: Loading, items: seq<Tree>)
    requires (forall i :: 0 <= i < |items| ==> ProperTree(items[i])) && StepAll(l, FlattenItems(items)).Loaded?
    ensures StepAll(l, FlattenItems(items)).l.ctx == l.ctx
    decreases items
  {
    if items != [] {
      var n := |items| - 1;
      StepAllConcat(l, FlattenItems(items[..n]), Flatten(items[n]));
      ItemsCtx(l, items[..n]);
      TreeCtx(StepAll(l, FlattenItems(items[..n])).l, items[n]);
    }
  }

  predicate NoDocumentEnd(events: seq<Event>) {
    forall i :: 0 <= i < |events| ==> !events[i].DocumentEnd?
  }

  lemma {:induction false} NoEndInTree(t: Tree)
    requires ProperTree(t)
    ensures NoDocumentEnd(Flatten(t))
    decreases t
  {
    if t.Collection? {
      NoEndInItems(t.items);
    }
  }

  lemma {:induction false} NoEndInItems(items: seq<Tree>)
    requires forall i :: 0 <= i < |items| ==> ProperTree(items[i])
    ensures NoDocumentEnd(FlattenItems(items))
    decreases items
  {
    if items != [] {
      NoEndInItems(items[..|items| - 1]);
      NoEndInTree(items[|items| - 1]);
    }
  }

  /** The loader's state goes with the grammar over any part of a document. */
  lemma {:induction false} RunKeeps(l: Loading, s: seq<Frame>, events: seq<Event>)
    requires Inv(l, s) && StepAll(l, events).Loaded?
    requires AcceptAll(Inside(s), events).Some? && NoDocumentEnd(events)
    ensures AcceptAll(Inside(s), events).value.Inside?
    ensures Inv(StepAll(l, events).l, AcceptAll(Inside(s), events).value.stack)
  {
    if events != [] {
      var n := |events| - 1;
      RunKeeps(l, s, events[..n]);
      StepKeeps(StepAll(l, events[..n]).l, AcceptAll(Inside(s), events[..n]).value.stack, events[n]);
    }
  }

  lemma ItemsKeep(l: Loading, s: seq<Frame>, f: Frame, items: seq<Tree>)
    requires Inv(l, s + [f]) && (f == Item || f == Key)
    requires (forall i :: 0 <= i < |items| ==> ProperTree(items[i])) && StepAll(l, FlattenItems(items)).Loaded?
    ensures Inv(StepAll(l, FlattenItems(items)).l, s + [Later(f, |items|)])
    ensures StepAll(l, FlattenItems(items)).l.ctx == l.ctx
  {
    AcceptItems(s, f, items);
    NoEndInItems(items);
    RunKeeps(l, s + [f], FlattenItems(items));
    ItemsCtx(l, items);
  }

  // ---------------------------------------------------------------- whole documents

  /** Loading any document the grammar allows breaks no assertion, and what loads is a closed
      graph with nothing left open. */
  lemma LoaderIsTotal(t: Tree)
    requires ProperTree(t)
    ensures StepAll(START, Flatten(t)) != Broken
    ensures StepAll(START, Flatten(t)).Loaded? ==> var l := StepAll(START, Flatten(t)).l;
      l.ctx == [] && l.nodes != [] && Closed(l.nodes)
  {
    AcceptTree([Root], t);
    NoEndInTree(t);
    NeverBroken(START, [Root], Flatten(t));
    if StepAll(START, Flatten(t)).Loaded? {
      RunKeeps(START, [Root], Flatten(t));
      assert NodeDone([Root]) == [RootDone];
      EndsClosed(StepAll(START, Flatten(t)).l);
    }
  }

  lemma {:induction false} NeverBroken(l: Loading, s: seq<Frame>, events: seq<Event>)
    requires Inv(l, s) && AcceptAll(Inside(s), events).Some? && NoDocumentEnd(events)
    ensures StepAll(l, events) != Broken
  {
    if events != [] {
      var n := |events| - 1;
      NeverBroken(l, s, events[..n]);
      if StepAll(l, events[..n]).Loaded? {
        RunKeeps(l, s, events[..n]);
        StepKeeps(StepAll(l, events[..n]).l, AcceptAll(Inside(s), events[..n]).value.stack, events[n]);
      }
    }
  }

  /** Load, then dump: the same events, with the nodes' anchors replaced by those the dumper
      chooses, and every node dumped. */
  lemma RoundTrip(t: Tree)
    requires ProperTree(t) && StepAll(START, Flatten(t)).Loaded?
    ensures var g := StepAll(START, Flatten(t)).l.nodes;
      && Closed(g) && g != []
      && DumpNode(g, YamlDumper.Anchored(g), 1, {}).events ==
           Renamed(Flatten(t), Targets(START, Flatten(t)), YamlDumper.Anchored(g))
      && DumpNode(g, YamlDumper.Anchored(g), 1, {}).targets == Targets(START, Flatten(t))
      && DumpNode(g, YamlDumper.Anchored(g), 1, {}).done == UpTo(|g|)
  {
    LoaderIsTotal(t);
    var l := StepAll(START, Flatten(t)).l;
    var anchors := YamlDumper.Anchored(l.nodes);
    assert Covers(l.nodes, START, l);
    TreeDumps(START, [Root], t, l.nodes, anchors);
    FirstTarget(t);
    assert UpTo(0) == {};
  }

  /** The root is node 1. */
  lemma FirstTarget(t: Tree)
    requires ProperTree(t) && StepAll(START, Flatten(t)).Loaded?
    ensures Targets(START, Flatten(t)) != [] && Targets(START, Flatten(t))[0] == 1
  {
    match t
    case Leaf(e) =>
      StepOne(START, e);
    case Collection(e, items) =>
      StepOne(START, e);
      StepAllConcat(START, [e], FlattenItems(items));
      StepAllConcat(START, [e] + FlattenItems(items), [EndOf(e)]);
  }

  // ---------------------------------------------------------------- what the renaming renames

  lemma StepAliases(l: Loading, e: Event)
    requires Step(l, e).Loaded?
    ensures AnchorIn(e).None? ==> Step(l, e).l.aliases == l.aliases
    ensures AnchorIn(e).Some? ==>
      && FindAnchor(l.aliases, AnchorIn(e).value) == |l.aliases|
      && Step(l, e).l.aliases == l.aliases + [Anchor(AnchorIn(e).value, TargetOf(l, e))]
  {
  }

  predicate Defines(events: seq<Event>, ts: seq<nat>, j: nat, a: Anchor)
    requires |events| == |ts|
  {
    j < |events| && AnchorIn(events[j]) == Some(a.name) && ts[j] == a.index
  }

  predicate Listed(events: seq<Event>, ts: seq<nat>, j: nat, aliases: seq<Anchor>)
    requires j < |events| == |ts| && AnchorIn(events[j]).Some?
  {
    var k := FindAnchor(aliases, AnchorIn(events[j]).value);
    k < |aliases| && Defines(events, ts, j, aliases[k])
  }

  ghost predicate Defined(events: seq<Event>, ts: seq<nat>, a: Anchor)
    requires |events| == |ts|
  {
    exists j: nat :: Defines(events, ts, j, a)
  }

  /** Every anchor of the loader comes from an event. */
  ghost predicate AllDefined(events: seq<Event>, ts: seq<nat>, aliases: seq<Anchor>)
    requires |events| == |ts|
  {
    forall k :: 0 <= k < |aliases| ==> Defined(events, ts, aliases[k])
  }

  ghost predicate AllListed(events: seq<Event>, ts: seq<nat>, aliases: seq<Anchor>)
    requires |events| == |ts|
  {
    forall j: nat :: j < |events| && AnchorIn(events[j]).Some? ==> Listed(events, ts, j, aliases)
  }

  ghost predicate AnchoredOnce(events: seq<Event>) {
    forall i, j :: 0 <= i < j < |events| && AnchorIn(events[i]).Some? ==> AnchorIn(events[i]) != AnchorIn(events[j])
  }

  /** The loader's anchors are those of the events so far, each defined once. */
  ghost predicate Table(events: seq<Event>, ts: seq<nat>, aliases: seq<Anchor>)
    requires |events| == |ts|
  {
    AllDefined(events, ts, aliases) && AllListed(events, ts, aliases) && AnchoredOnce(events)
  }

  lemma {:induction false} FindAnchorMore(aliases: seq<Anchor>, a: Anchor, name: Name)
    ensures FindAnchor(aliases + [a], name) ==
      if FindAnchor(aliases, name) < |aliases| then FindAnchor(aliases, name)
      else if a.name == name then |aliases| else |aliases| + 1
  {
    if aliases == [] {
      assert (aliases + [a])[1..] == [];
    } else if aliases[0].name != name {
      assert (aliases + [a])[1..] == aliases[1..] + [a];
      FindAnchorMore(aliases[1..], a, name);
    }
  }

  function MoreAnchors(aliases: seq<Anchor>, e: Event, t: nat): seq<Anchor> {
    if AnchorIn(e).Some? then aliases + [Anchor(AnchorIn(e).value, t)] else aliases
  }

  lemma DefinedGrows(events: seq<Event>, ts: seq<nat>, aliases: seq<Anchor>, e: Event, t: nat)
    requires |events| == |ts| && AllDefined(events, ts, aliases)
    ensures AllDefined(events + [e], ts + [t], MoreAnchors(aliases, e, t))
  {
    var events', ts', aliases' := events + [e], ts + [t], MoreAnchors(aliases, e, t);
    forall k | 0 <= k < |aliases'| ensures Defined(events', ts', aliases'[k]) {
      if k < |aliases| {
        assert Defined(events, ts, aliases[k]);
        var j: nat :| Defines(events, ts, j, aliases[k]);
        assert Defines(events', ts', j, aliases'[k]);
      } else {
        assert Defines(events', ts', |events|, aliases'[k]);
      }
    }
  }

  lemma ListedGrows(events: seq<Event>, ts: seq<nat>, aliases: seq<Anchor>, e: Event, t: nat)
    requires |events| == |ts| && AllListed(events, ts, aliases)
    requires AnchorIn(e).Some? ==> FindAnchor(aliases, AnchorIn(e).value) == |aliases|
    ensures AllListed(events + [e], ts + [t], MoreAnchors(aliases, e, t))
  {
    var events', ts', aliases' := events + [e], ts + [t], MoreAnchors(aliases, e, t);
    forall j: nat | j < |events'| && AnchorIn(events'[j]).Some? ensures Listed(events', ts', j, aliases') {
      var name := AnchorIn(events'[j]).value;
      if AnchorIn(e).Some? {
        FindAnchorMore(aliases, Anchor(AnchorIn(e).value, t), name);
      }
      if j < |events| {
        assert events'[j] == events[j];
        assert Listed(events, ts, j, aliases);
        assert Defines(events', ts', j, aliases'[FindAnchor(aliases, name)]);
      } else {
        assert events'[j] == e;
        assert aliases'[|aliases|] == Anchor(name, t);
        assert Defines(events', ts', j, aliases'[|aliases|]);
      }
    }
  }

  lemma OnceGrows(events: seq<Event>, ts: seq<nat>, aliases: seq<Anchor>, e: Event)
    requires |events| == |ts| && AllListed(events, ts, aliases) && AnchoredOnce(events)
    requires AnchorIn(e).Some? ==> FindAnchor(aliases, AnchorIn(e).value) == |aliases|
    ensures AnchoredOnce(events + [e])
  {
    var events' := events + [e];
    forall i, j | 0 <= i < j < |events'| && AnchorIn(events'[i]).Some?
      ensures AnchorIn(events'[i]) != AnchorIn(events'[j])
    {
      assert Listed(events, ts, i, aliases);
    }
  }

  lemma TableGrows(events: seq<Event>, ts: seq<nat>, aliases: seq<Anchor>, e: Event, t: nat)
    requires |events| == |ts| && Table(events, ts, aliases)
    requires AnchorIn(e).Some? ==> FindAnchor(aliases, AnchorIn(e).value) == |aliases|
    ensures Table(events + [e], ts + [t], MoreAnchors(aliases, e, t))
  {
    DefinedGrows(events, ts, aliases, e, t);
    ListedGrows(events, ts, aliases, e, t);
    OnceGrows(events, ts, aliases, e);
  }

  lemma NoTable()
    ensures Table([], [], [])
  {
  }

  lemma {:induction false} TableOf(events: seq<Event>)
    requires StepAll(START, events).Loaded?
    ensures Table(events, Targets(START, events), StepAll(START, events).l.aliases)
  {
    NoTable();
    hide Table, Step, TargetOf;
    if events != [] {
      var n := |events| - 1;
      TableOf(events[..n]);
      var l := StepAll(START, events[..n]).l;
      StepAliases(l, events[n]);
      TableGrows(events[..n], Targets(START, events[..n]), l.aliases, events[n], TargetOf(l, events[n]));
      assert events == events[..n] + [events[n]];
    }
  }

  lemma {:induction false} NoRecovery(l: Loading, events: seq<Event>, n: nat)
    requires n <= |events| && StepAll(l, events).Loaded?
    ensures StepAll(l, events[..n]).Loaded?
  {
    if n < |events| {
      assert events[..|events| - 1][..n] == events[..n];
      NoRecovery(l, events[..|events| - 1], n);
    } else {
      assert events[..n] == events;
    }
  }

  /** The i-th target is found in the state that the events before it lead to. */
  lemma TargetAt(events: seq<Event>, i: nat)
    requires StepAll(START, events).Loaded? && i < |events|
    ensures StepAll(START, events[..i]).Loaded?
    ensures var l := StepAll(START, events[..i]).l;
      && Step(l, events[i]).Loaded? && StepAll(START, events[..i + 1]) == Step(l, events[i])
      && Targets(START, events)[i] == TargetOf(l, events[i])
      && Targets(START, events)[..i] == Targets(START, events[..i])
  {
    hide StepAll, Step, Targets, TargetOf;
    NoRecovery(START, events, i);
    NoRecovery(START, events, i + 1);
    SplitEvents(events, i);
    TargetMiddle(events[..i], events[i], events[i + 1..]);
  }

  lemma SplitEvents(events: seq<Event>, i: nat)
    requires i < |events|
    ensures events[..i + 1] == events[..i] + [events[i]] && events == events[..i] + [events[i]] + events[i + 1..]
  {
  }

  lemma TargetMiddle(front: seq<Event>, e: Event, back: seq<Event>)
    requires StepAll(START, front).Loaded? && StepAll(START, front + [e]).Loaded?
    ensures var l := StepAll(START, front).l; var ts := Targets(START, front + [e] + back);
      && Step(l, e).Loaded? && StepAll(START, front + [e]) == Step(l, e)
      && ts[|front|] == TargetOf(l, e) && ts[..|front|] == Targets(START, front)
  {
    StepAllConcat(START, front, [e]);
    StepAllConcat(START, front + [e], back);
    StepOne(StepAll(START, front).l, e);
  }

  /** An alias is about the node of the one earlier event that has its name as anchor. */
  lemma AliasResolves(events: seq<Event>, i: nat) returns (j: nat)
    requires StepAll(START, events).Loaded? && i < |events| && events[i].AliasEvent?
    ensures j < i && AnchorIn(events[j]) == Some(events[i].name)
    ensures Targets(START, events)[i] == Targets(START, events)[j]
    ensures forall k :: 0 <= k < |events| && AnchorIn(events[k]) == Some(events[i].name) ==> k == j
  {
    TargetAt(events, i);
    TableOf(events[..i]);
    TableOf(events);
    var l := StepAll(START, events[..i]).l;
    var k := FindAnchor(l.aliases, events[i].name);
    assert k < |l.aliases|;
    assert Defined(events[..i], Targets(START, events[..i]), l.aliases[k]);
    j :| Defines(events[..i], Targets(START, events[..i]), j, l.aliases[k]);
    assert Targets(START, events)[..i][j] == Targets(START, events)[j];
    hide StepAll, Step;
    assert forall k :: 0 <= k < |events| && k != j ==> AnchorIn(events[k]) != AnchorIn(events[j]);
  }

  /** Nodes are numbered in the order of the events that start them. */
  lemma StartsNumbered(events: seq<Event>, i: nat, j: nat)
    requires StepAll(START, events).Loaded? && i < j < |events|
    requires !events[i].AliasEvent? && !events[j].AliasEvent? && Targets(START, events)[j] != 0
    ensures Targets(START, events)[i] < Targets(START, events)[j]
  {
    hide TargetOf;
    TargetAt(events, i);
    TargetAt(events, j);
    NewCounts(StepAll(START, events[..i]).l, events[i]);
    NewTarget(StepAll(START, events[..j]).l, events[j]);
    NodesLater(events, i + 1, j);
  }

  lemma NodesLater(events: seq<Event>, i: nat, j: nat)
    requires StepAll(START, events).Loaded? && i <= j <= |events|
    ensures StepAll(START, events[..i]).Loaded? && StepAll(START, events[..j]).Loaded?
    ensures |StepAll(START, events[..i]).l.nodes| <= |StepAll(START, events[..j]).l.nodes|
  {
    NoRecovery(START, events, i);
    NoRecovery(START, events, j);
    assert events[..j] == events[..i] + events[i..j];
    StepAllConcat(START, events[..i], events[i..j]);
    NodesGrow(StepAll(START, events[..i]).l, events[i..j]);
  }

  lemma NewTarget(l: Loading, e: Event)
    requires !e.AliasEvent?
    ensures TargetOf(l, e) == 0 || TargetOf(l, e) == |l.nodes| + 1
  {
  }

  lemma NewCounts(l: Loading, e: Event)
    requires Step(l, e).Loaded? && !e.AliasEvent?
    ensures TargetOf(l, e) <= |Step(l, e).l.nodes|
  {
  }

  /** Anchors are unique, and every alias has its anchor before it. */
  ghost predicate WellAnchored(events: seq<Event>) {
    && AnchoredOnce(events)
    && forall i :: 0 <= i < |events| && events[i].AliasEvent? ==> AnchorBefore(events, i, events[i].name)
  }

  ghost predicate AnchorBefore(events: seq<Event>, i: nat, name: Name)
    requires i <= |events|
  {
    exists j :: 0 <= j < i && AnchorIn(events[j]) == Some(name)
  }

  lemma AnchoredPrefix(events: seq<Event>, n: nat)
    requires WellAnchored(events) && n <= |events|
    ensures WellAnchored(events[..n])
  {
    forall i | 0 <= i < n && events[..n][i].AliasEvent? ensures AnchorBefore(events[..n], i, events[..n][i].name) {
      assert AnchorBefore(events, i, events[i].name);
      var j :| 0 <= j < i && AnchorIn(events[j]) == Some(events[i].name);
      assert AnchorIn(events[..n][j]) == Some(events[i].name);
    }
  }

  lemma DefinedName(events: seq<Event>, ts: seq<nat>, aliases: seq<Anchor>, k: nat) returns (j: nat)
    requires |events| == |ts| && AllDefined(events, ts, aliases) && k < |aliases|
    ensures j < |events| && AnchorIn(events[j]) == Some(aliases[k].name)
  {
    assert Defined(events, ts, aliases[k]);
    j :| Defines(events, ts, j, aliases[k]);
  }

  lemma Undefined(events: seq<Event>, n: nat, ts: seq<nat>, aliases: seq<Anchor>, name: Name)
    requires n < |events| && n == |ts| && AllDefined(events[..n], ts, aliases)
    requires AnchoredOnce(events) && AnchorIn(events[n]) == Some(name)
    ensures FindAnchor(aliases, name) == |aliases|
  {
    hide AllDefined;
    var k := FindAnchor(aliases, name);
    if k < |aliases| {
      var j := DefinedName(events[..n], ts, aliases, k);
    }
  }

  /** A step that the anchors allow does not fail. */
  lemma StepLoads(events: seq<Event>, n: nat)
    requires n < |events| && WellAnchored(events) && StepAll(START, events[..n]).Loaded?
    ensures Step(StepAll(START, events[..n]).l, events[n]) != Failed
  {
    var before, e := events[..n], events[n];
    var l, ts := StepAll(START, before).l, Targets(START, before);
    TableOf(before);
    if e.AliasEvent? {
      assert AnchorBefore(events, n, e.name);
      var j :| 0 <= j < n && AnchorIn(events[j]) == Some(e.name);
      assert before[j] == events[j];
      assert Listed(before, ts, j, l.aliases);
    } else if AnchorIn(e).Some? {
      Undefined(events, n, ts, l.aliases, AnchorIn(e).value);
    }
    NodeAddNotFailed(l, e);
  }

  lemma NodeAddNotFailed(l: Loading, e: Event)
    ensures Step(l, e) == Failed ==>
      (e.AliasEvent? && FindAnchor(l.aliases, e.name) == |l.aliases|)
      || (AnchorIn(e).Some? && FindAnchor(l.aliases, AnchorIn(e).value) < |l.aliases|)
  {
  }

  lemma {:induction false} AnchoredLoads(events: seq<Event>)
    requires WellAnchored(events) && AcceptAll(Inside([Root]), events).Some? && NoDocumentEnd(events)
    ensures StepAll(START, events).Loaded?
  {
    NeverBroken(START, [Root], events);
    if events != [] {
      var n := |events| - 1;
      AnchoredPrefix(events, n);
      AnchoredLoads(events[..n]);
      StepLoads(events, n);
    }
  }

  /** A document loads exactly if its anchors are unique and no alias comes before its anchor. */
  lemma LoadsIffAnchored(t: Tree)
    requires ProperTree(t)
    ensures StepAll(START, Flatten(t)).Loaded? <==> WellAnchored(Flatten(t))
  {
    var events := Flatten(t);
    AcceptTree([Root], t);
    NoEndInTree(t);
    if WellAnchored(events) {
      AnchoredLoads(events);
    }
    if StepAll(START, events).Loaded? {
      TableOf(events);
      forall i | 0 <= i < |events| && events[i].AliasEvent? ensures AnchorBefore(events, i, events[i].name) {
        var j := AliasResolves(events, i);
        assert AnchorIn(events[j]) == Some(events[i].name);
      }
    }
  }
}
