/**
 The dumper: a first walk over a document's graph counts references and numbers the nodes that
 are met twice; a second one emits the events, writing an alias for every node met before.
 */
module YamlDumper {
  import opened Bytes
  import opened YamlEvents
  import opened YamlGraph

  // ---------------------------------------------------------------- anchors

  /** `emitter->anchors[]` and `last_anchor_id`, as far as the first walk goes. */
  datatype Anchoring = Anchoring(refs: seq<nat>, ids: seq<nat>, last: nat)

  function Touch(a: Anchoring, k: nat): Anchoring
    requires 1 <= k <= |a.refs| == |a.ids|
  {
    var n := a.refs[k - 1] + 1;
    var b := a.(refs := a.refs[k - 1 := n]);
    if n == 2 then b.(ids := b.ids[k - 1 := a.last + 1], last := a.last + 1) else b
  }

  predicate InRange(trace: seq<nat>, n: nat) {
    forall i :: 0 <= i < |trace| ==> 1 <= trace[i] <= n
  }

  function TouchAll(a: Anchoring, trace: seq<nat>): (b: Anchoring)
    requires |a.refs| == |a.ids| && InRange(trace, |a.refs|)
    ensures |b.refs| == |b.ids| == |a.refs|
  {
    if trace == [] then a else Touch(TouchAll(a, trace[..|trace| - 1]), trace[|trace| - 1])
  }

  lemma {:induction false} TouchConcat(a: Anchoring, s: seq<nat>, t: seq<nat>)
    requires |a.refs| == |a.ids| && InRange(s, |a.refs|) && InRange(t, |a.refs|)
    ensures TouchAll(a, s + t) == TouchAll(TouchAll(a, s), t)
  {
    if t == [] {
      assert s + t == s;
    } else {
      assert (s + t)[..|s + t| - 1] == s + t[..|t| - 1];
      TouchConcat(a, s, t[..|t| - 1]);
    }
  }

  function Zeros(n: nat): seq<nat> {
    seq(n, _ => 0)
  }

  function Count(trace: seq<nat>, k: nat): nat {
    if trace == [] then 0 else Count(trace[..|trace| - 1], k) + if trace[|trace| - 1] == k then 1 else 0
  }

  function Untouched(n: nat): Anchoring {
    Anchoring(Zeros(n), Zeros(n), 0)
  }

  /** Each node's references are counted, and exactly those met twice have a number. */
  ghost predicate CountedAt(a: Anchoring, trace: seq<nat>, k: nat)
    requires |a.refs| == |a.ids|
  {
    1 <= k <= |a.refs| ==>
      && a.refs[k - 1] == Count(trace, k)
      && (a.ids[k - 1] != 0 <==> Count(trace, k) >= 2)
      && a.ids[k - 1] <= a.last
  }

  ghost predicate Distinct(ids: seq<nat>) {
    forall j, k :: 0 <= j < k < |ids| && ids[j] == ids[k] ==> ids[j] == 0
  }

  /** The first walk counts each node's references, and numbers, each with a number of its
      own, exactly the nodes met twice or more. */
  lemma {:induction false} TouchCounts(n: nat, trace: seq<nat>)
    requires InRange(trace, n)
    ensures var a := TouchAll(Untouched(n), trace);
      Distinct(a.ids) && forall k :: CountedAt(a, trace, k)
  {
    var a := TouchAll(Untouched(n), trace);
    if trace == [] {
      assert forall k :: CountedAt(a, trace, k);
    } else {
      var m := |trace| - 1;
      var before := TouchAll(Untouched(n), trace[..m]);
      TouchCounts(n, trace[..m]);
      assert CountedAt(before, trace[..m], trace[m]);
      forall k ensures CountedAt(a, trace, k) {
        assert CountedAt(before, trace[..m], k);
      }
      forall j, k | 0 <= j < k < n && a.ids[j] == a.ids[k] ensures a.ids[j] == 0 {
        assert CountedAt(before, trace[..m], j + 1) && CountedAt(before, trace[..m], k + 1);
      }
    }
  }

  /** `id%03d` */
  function Digits(n: nat): (d: Name)
    ensures d != []
  {
    var last: byte := 48 + n % 10;
    if n < 10 then [last] else Digits(n / 10) + [last]
  }

  function AnchorName(id: nat): Name {
    var d := Digits(id);
    [105, 100] + (if |d| == 1 then [48, 48] else if |d| == 2 then [48] else []) + d
  }

  /** Reads the digits back; leading zeros do not matter. */
  function Number(d: Name): int {
    if d == [] then 0
    else
      var c: int := d[|d| - 1];
      10 * Number(d[..|d| - 1]) + c - 48
  }

  lemma {:induction false} DigitsNumber(n: nat)
    ensures Number(Digits(n)) == n
  {
    if n < 10 {
      assert Digits(n)[..0] == [];
    } else {
      DigitsNumber(n / 10);
      assert Digits(n)[..|Digits(n)| - 1] == Digits(n / 10);
    }
  }

  lemma {:induction false} LeadingZero(d: Name)
    ensures Number([48] + d) == Number(d)
  {
    if d == [] {
      assert ([48] + d)[..0] == [];
    } else {
      assert ([48] + d)[..|d|] == [48] + d[..|d| - 1];
      LeadingZero(d[..|d| - 1]);
    }
  }

  /** Different numbers give different names. */
  lemma AnchorNumber(id: nat)
    ensures Number(AnchorName(id)[2..]) == id
  {
    var d := Digits(id);
    DigitsNumber(id);
    if |d| == 1 {
      assert AnchorName(id)[2..] == [48] + ([48] + d);
      LeadingZero([48] + d);
      LeadingZero(d);
    } else if |d| == 2 {
      assert AnchorName(id)[2..] == [48] + d;
      LeadingZero(d);
    } else {
      assert AnchorName(id)[2..] == d;
    }
  }

  function NameOf(id: nat): Option<Name> {
    if id == 0 then None else Some(AnchorName(id))
  }

  function NamesOf(ids: seq<nat>): (names: Anchors)
    ensures |names| == |ids|
    ensures forall i :: 0 <= i < |ids| ==> names[i] == NameOf(ids[i])
  {
    if ids == [] then [] else NamesOf(ids[..|ids| - 1]) + [NameOf(ids[|ids| - 1])]
  }

  /** The anchors the first walk gives the nodes of a document. */
  ghost function Anchored(g: Graph): (a: Anchors)
    requires Closed(g) && g != []
    ensures |a| == |g|
  {
    WalkInRange(g, 1, {});
    NamesOf(TouchAll(Untouched(|g|), Visit(g, 1, {}).trace).ids)
  }

  lemma {:induction false} WalkInRange(g: Graph, k: nat, done: set<nat>)
    requires Closed(g) && InGraph(g, k)
    ensures InRange(Visit(g, k, done).trace, |g|)
    decreases Left(g, done), 0, 0
  {
    if k !in done {
      LeftShrinks(g, done, done + {k});
      WalkAllInRange(g, Children(g[k - 1]), done + {k});
    }
  }

  lemma {:induction false} WalkAllInRange(g: Graph, ks: seq<nat>, done: set<nat>)
    requires Closed(g) && AllIn(g, ks)
    ensures InRange(VisitAll(g, ks, done).trace, |g|)
    decreases Left(g, done), 1, |ks|
  {
    if ks != [] {
      WalkInRange(g, ks[0], done);
      var v := Visit(g, ks[0], done);
      LeftShrinks(g, done, v.done);
      WalkAllInRange(g, ks[1..], v.done);
    }
  }

  // ---------------------------------------------------------------- what every dump promises

  /** Twice in the walk is twice among the targets. */
  lemma {:induction false} CountTwice(targets: seq<nat>, i: nat, j: nat)
    requires i < j < |targets| && targets[i] == targets[j] != 0
    ensures Count(Nodes(targets), targets[i]) >= 2
  {
    assert targets == targets[..i] + ([targets[i]] + (targets[i + 1..j] + ([targets[j]] + targets[j + 1..])));
    var k := targets[i];
    NodesConcat(targets[..i], [k] + (targets[i + 1..j] + ([k] + targets[j + 1..])));
    NodesConcat([k], targets[i + 1..j] + ([k] + targets[j + 1..]));
    NodesConcat(targets[i + 1..j], [k] + targets[j + 1..]);
    NodesConcat([k], targets[j + 1..]);
    assert Nodes([k]) == [k] + Nodes([k][1..]) == [k];
    CountConcat(Nodes(targets[..i]), [k] + (Nodes(targets[i + 1..j]) + ([k] + Nodes(targets[j + 1..]))), k);
    CountConcat([k], Nodes(targets[i + 1..j]) + ([k] + Nodes(targets[j + 1..])), k);
    CountConcat(Nodes(targets[i + 1..j]), [k] + Nodes(targets[j + 1..]), k);
    CountConcat([k], Nodes(targets[j + 1..]), k);
    assert [k][..0] == [];
  }

  lemma {:induction false} CountConcat(a: seq<nat>, b: seq<nat>, k: nat)
    ensures Count(a + b, k) == Count(a, k) + Count(b, k)
  {
    if b == [] {
      assert a + b == a;
    } else {
      assert (a + b)[..|a + b| - 1] == a + b[..|b| - 1];
      CountConcat(a, b[..|b| - 1], k);
    }
  }

  /** Twice in the walk only if twice among the targets. */
  lemma {:induction false} TwiceCounted(targets: seq<nat>, k: nat)
    requires k != 0 && Count(Nodes(targets), k) >= 2
    ensures exists i, j :: 0 <= i < j < |targets| && targets[i] == targets[j] == k
  {
    var x := OnceCounted(targets, k, 2);
    var front := targets[..x];
    assert targets == front + ([k] + targets[x + 1..]);
    NodesConcat(front, [k] + targets[x + 1..]);
    NodesConcat([k], targets[x + 1..]);
    assert Nodes([k]) == [k] + Nodes([k][1..]) == [k];
    CountConcat(Nodes(front), [k] + Nodes(targets[x + 1..]), k);
    CountConcat([k], Nodes(targets[x + 1..]), k);
    assert [k][..0] == [];
    if Count(Nodes(targets[x + 1..]), k) >= 1 {
      var y := OnceCounted(targets[x + 1..], k, 1);
      assert targets[x + 1 + y] == k;
    } else {
      var y := OnceCounted(front, k, 1);
      assert targets[y] == k;
    }
  }

  lemma {:induction false} OnceCounted(targets: seq<nat>, k: nat, n: nat) returns (i: nat)
    requires k != 0 && Count(Nodes(targets), k) >= n >= 1
    ensures i < |targets| && targets[i] == k
  {
    if targets[0] == k {
      i := 0;
    } else {
      var head := if targets[0] == 0 then [] else [targets[0]];
      CountConcat(head, Nodes(targets[1..]), k);
      if head != [] {
        assert head[..0] == [];
      }
      var j := OnceCounted(targets[1..], k, n);
      i := j + 1;
    }
  }

  /** What the first walk gives node k. */
  lemma AnchorOf(g: Graph, k: nat)
    requires Closed(g) && InGraph(g, k)
    ensures var d := DumpNode(g, Anchored(g), 1, {});
      Anchored(g)[k - 1].Some? <==> Count(Nodes(d.targets), k) >= 2
  {
    DumpMeets(g, Anchored(g), 1, {});
    WalkInRange(g, 1, {});
    var trace := Visit(g, 1, {}).trace;
    TouchCounts(|g|, trace);
    assert CountedAt(TouchAll(Untouched(|g|), trace), trace, k);
  }

  /** For every graph, cyclic or not: an alias comes after the opening event of its node,
      which carries the alias's name as its anchor. */
  lemma AliasesFollowAnchors(g: Graph, i: nat)
    requires Closed(g) && g != []
    requires i < |DumpNode(g, Anchored(g), 1, {}).events|
    ensures var d := DumpNode(g, Anchored(g), 1, {});
      && |d.events| == |d.targets| && ToldAt(g, Anchored(g), d, {}, i)
      && (d.events[i].AliasEvent? ==>
            && d.targets[i] in d.targets[..i] && InGraph(g, d.targets[i])
            && Anchored(g)[d.targets[i] - 1] == Some(d.events[i].name))
  {
    var d := DumpNode(g, Anchored(g), 1, {});
    DumpTells(g, Anchored(g), 1, {});
    assert ToldAt(g, Anchored(g), d, {}, i);
    var k := d.targets[i];
    if d.events[i].AliasEvent? {
      var j :| 0 <= j < i && d.targets[j] == k;
      CountTwice(d.targets, j, i);
      AnchorOf(g, k);
    }
  }

  /** Different nodes have different anchors. */
  lemma AnchorsDiffer(g: Graph, j: nat, k: nat)
    requires Closed(g) && InGraph(g, j) && InGraph(g, k) && j != k
    ensures Anchored(g)[j - 1].Some? ==> Anchored(g)[j - 1] != Anchored(g)[k - 1]
  {
    WalkInRange(g, 1, {});
    var a := TouchAll(Untouched(|g|), Visit(g, 1, {}).trace);
    TouchCounts(|g|, Visit(g, 1, {}).trace);
    AnchorNumber(a.ids[j - 1]);
    AnchorNumber(a.ids[k - 1]);
    assert Anchored(g)[j - 1] == NameOf(a.ids[j - 1]) && Anchored(g)[k - 1] == NameOf(a.ids[k - 1]);
    assert Distinct(a.ids);
  }

  /** A node has an anchor exactly if an alias for it is emitted. */
  lemma AnchoredIffAliased(g: Graph, k: nat)
    requires Closed(g) && InGraph(g, k)
    ensures var d := DumpNode(g, Anchored(g), 1, {});
      Anchored(g)[k - 1].Some? <==> exists i, j :: 0 <= i < j < |d.targets| && d.targets[i] == d.targets[j] == k
  {
    var d := DumpNode(g, Anchored(g), 1, {});
    AnchorOf(g, k);
    TwiceIffCounted(d.targets, k);
    hide DumpNode, Anchored, Count;
  }

  lemma TwiceIffCounted(targets: seq<nat>, k: nat)
    requires k != 0
    ensures Count(Nodes(targets), k) >= 2 <==> exists i, j :: 0 <= i < j < |targets| && targets[i] == targets[j] == k
  {
    if Count(Nodes(targets), k) >= 2 {
      TwiceCounted(targets, k);
    }
    if i, j :| 0 <= i < j < |targets| && targets[i] == targets[j] == k {
      CountTwice(targets, i, j);
    }
  }
}
