/**
 The mapped-DNS cache: one set of nodes seen through a tree by name, a list by last touch
 and an array by index, handing out addresses that map back to names.
 */
module MappedDns {
  import opened Bytes
  import opened ColoredTree
  import opened DnsNode
  import opened RbLayout
  import opened RbTree
  import opened HevLists
  import opened Word
  import LruCache

  /** In-order the names go strictly down: a smaller name is kept to the left of the search
      for a larger one. */
  ghost predicate Descending(s: seq<Node>) {
    forall i, j :: 0 <= i < j < |s| ==> Compare(s[i].name, s[j].name) > 0
  }

  ghost predicate AllAbove(s: seq<Node>, name: Name) {
    forall n :: n in s ==> Compare(n.name, name) > 0
  }

  ghost predicate AllBelow(s: seq<Node>, name: Name) {
    forall n :: n in s ==> Compare(n.name, name) < 0
  }

  /** What the list says, without the nodes. */
  ghost function Entries(items: seq<Node>): (c: seq<LruCache.Entry>)
    reads items`idx
    ensures |c| == |items|
    ensures forall i :: 0 <= i < |items| ==> c[i] == LruCache.Entry(items[i].name, items[i].idx)
  {
    if items == [] then [] else [LruCache.Entry(items[0].name, items[0].idx)] + Entries(items[1..])
  }

  // ---------------------------------------------------------------- searching

  lemma Descend(m: Cells, root: Node?, p: Trail, t: Shape)
    requires At(m, root, p, t) && t.Node?
    ensures At(m, root, InLeft(p, t.color, t.item, t.right), t.left)
    ensures At(m, root, InRight(p, t.color, t.left, t.item), t.right)
  {
  }

  lemma DescendingPart(a: seq<Node>, b: seq<Node>, c: seq<Node>)
    requires Descending(a + b + c)
    ensures Descending(b)
  {
    forall i, j | 0 <= i < j < |b| ensures Compare(b[i].name, b[j].name) > 0 {
      assert (a + b + c)[|a| + i] == b[i] && (a + b + c)[|a| + j] == b[j];
    }
  }

  /** What stands right of a node smaller than `name` is smaller than `name`. */
  lemma BelowRight(v: Node, r: seq<Node>, name: Name)
    requires Descending([v] + r) && Compare(v.name, name) < 0
    ensures AllBelow([v] + r, name)
  {
    forall n | n in [v] + r ensures Compare(n.name, name) < 0 {
      if n in r {
        var i :| 0 <= i < |r| && r[i] == n;
        assert ([v] + r)[0] == v && ([v] + r)[i + 1] == n;
        CompareFlip(v.name, name);
        CompareFlip(n.name, name);
        CompareTransitive(name, v.name, n.name);
      }
    }
  }

  lemma AboveLeft(l: seq<Node>, v: Node, name: Name)
    requires Descending(l + [v]) && Compare(v.name, name) > 0
    ensures AllAbove(l + [v], name)
  {
    forall n | n in l + [v] ensures Compare(n.name, name) > 0 {
      if n in l {
        var i :| 0 <= i < |l| && l[i] == n;
        assert (l + [v])[i] == n && (l + [v])[|l|] == v;
        CompareTransitive(n.name, v.name, name);
      }
    }
  }

  lemma BelowBoth(a: seq<Node>, b: seq<Node>, name: Name)
    requires AllBelow(a, name) && AllBelow(b, name)
    ensures AllBelow(a + b, name)
  {
    hide Compare;
  }

  lemma AboveBoth(a: seq<Node>, b: seq<Node>, name: Name)
    requires AllAbove(a, name) && AllAbove(b, name)
    ensures AllAbove(a + b, name)
  {
    hide Compare;
  }

  /** One turn of the search: everything passed over lies on the right side of `name`. */
  lemma GoLeft(p: Trail, t: Shape, name: Name)
    requires t.Node? && Descending(InOrder(Plug(p, t))) && Compare(t.item.name, name) < 0
    requires AllBelow(After(p), name)
    ensures AllBelow(After(InLeft(p, t.color, t.item, t.right)), name)
  {
    hide Compare, Plug, Descending, AllBelow;
    PlugInOrder(p, t);
    DescendingPart(Before(p), InOrder(t), After(p));
    assert InOrder(t) == InOrder(t.left) + ([t.item] + InOrder(t.right)) + [];
    DescendingPart(InOrder(t.left), [t.item] + InOrder(t.right), []);
    BelowRight(t.item, InOrder(t.right), name);
    BelowBoth([t.item] + InOrder(t.right), After(p), name);
  }

  lemma GoRight(p: Trail, t: Shape, name: Name)
    requires t.Node? && Descending(InOrder(Plug(p, t))) && Compare(t.item.name, name) > 0
    requires AllAbove(Before(p), name)
    ensures AllAbove(Before(InRight(p, t.color, t.left, t.item)), name)
  {
    hide Compare, Plug, Descending, AllAbove;
    PlugInOrder(p, t);
    DescendingPart(Before(p), InOrder(t), After(p));
    DescendingFirst(InOrder(t.left), t.item, InOrder(t.right));
    AboveLeft(InOrder(t.left), t.item, name);
    AboveBoth(Before(p), InOrder(t.left) + [t.item], name);
    assert Before(InRight(p, t.color, t.left, t.item)) == Before(p) + (InOrder(t.left) + [t.item]);
  }

  lemma DescendingFirst(l: seq<Node>, v: Node, r: seq<Node>)
    requires Descending(l + [v] + r)
    ensures Descending(l + [v])
  {
    assert [] + (l + [v]) + r == l + [v] + r;
    DescendingPart([], l + [v], r);
  }

  /** At the bottom of the search the name is not in the tree. */
  lemma NotThere(m: Cells, root: Node?, p: Trail, name: Name)
    requires AllAbove(Before(p), name) && AllBelow(After(p), name)
    ensures forall n :: n in TrailNodes(p) ==> n.name != name
  {
    forall n | n in TrailNodes(p) ensures n.name != name {
      TrailItems(p, n);
      CompareEqual(n.name, name);
    }
  }

  lemma InsertDescending(a: seq<Node>, n: Node, b: seq<Node>)
    requires Descending(a + b) && AllAbove(a, n.name) && AllBelow(b, n.name)
    ensures Descending(a + [n] + b)
  {
    var s := a + [n] + b;
    forall i, j | 0 <= i < j < |s| ensures Compare(s[i].name, s[j].name) > 0 {
      var i' := if i < |a| then i else i - 1;
      var j' := if j < |a| then j else j - 1;
      if i != |a| && j != |a| {
        assert s[i] == (a + b)[i'] && s[j] == (a + b)[j'];
      } else if i == |a| {
        assert s[j] == b[j - |a| - 1];
        CompareFlip(s[i].name, s[j].name);
      } else {
        assert s[i] in a;
      }
    }
  }

  lemma EraseDescending(a: seq<Node>, n: Node, b: seq<Node>)
    requires Descending(a + [n] + b)
    ensures Descending(a + b)
  {
    var s := a + [n] + b;
    var t := a + b;
    forall i, j | 0 <= i < j < |t| ensures Compare(t[i].name, t[j].name) > 0 {
      assert t[i] == s[if i < |a| then i else i + 1] && t[j] == s[if j < |a| then j else j + 1];
    }
  }

  lemma WithoutDescending(s: seq<Node>, n: Node)
    requires Descending(s) && n in s
    ensures Descending(Without(s, n)) && |Without(s, n)| == |s| - 1
  {
    var k :| 0 <= k < |s| && s[k] == n;
    CompareEqual(n.name, n.name);
    assert n !in s[..k];
    assert n !in s[k + 1..];
    assert s == s[..k] + [n] + s[k + 1..];
    WithoutMiddle(s[..k], n, s[k + 1..]);
    EraseDescending(s[..k], n, s[k + 1..]);
  }

  // ---------------------------------------------------------------- the cache

  lemma FirstGone(items: seq<Node>)
    requires items != []
    ensures items[..0] + items[1..] == items[1..]
  {
  }

  lemma OldestFirst(items: seq<Node>, n: Node)
    ensures (items + [n])[..|items|] == items
    ensures items != [] ==> (items + [n])[0] == items[0] && (items + [n])[1..] == items[1..] + [n]
  {
  }

  twostate lemma EntriesKept(items: seq<Node>)
    requires forall i :: 0 <= i < |items| ==> items[i].idx == old(items[i].idx)
    ensures Entries(items) == old(Entries(items))
  {
  }

  lemma HeldAll(items: seq<Node>)
    ensures forall i :: 0 <= i < |items| ==> items[i] in Held(items)
  {
    forall i | 0 <= i < |items| ensures items[i] in Held(items) {
      HeldIn(items, items[i]);
    }
  }

  lemma EntriesToTail(items: seq<Node>, k: nat)
    requires k < |items|
    ensures Entries(LruCache.ToTail(items, k)) == LruCache.ToTail(Entries(items), k)
  {
    LruCache.ToTailAt(items, k);
    LruCache.ToTailAt(Entries(items), k);
  }

  ghost predicate NamedOnce(items: seq<Node>) {
    forall i, j :: 0 <= i < j < |items| ==> items[i].name != items[j].name
  }

  /** Nodes of the tree differ in their names. */
  lemma ListedOnce(items: seq<Node>, shape: Shape)
    requires Descending(InOrder(shape)) && Held(items) == Nodes(shape)
    requires Once(items)
    ensures NamedOnce(items)
  {
    forall i, j | 0 <= i < j < |items| ensures items[i].name != items[j].name {
      HeldIn(items, items[i]);
      HeldIn(items, items[j]);
      NamesDiffer(shape, items[i], items[j]);
    }
  }

  lemma NamesDiffer(shape: Shape, a: Node, b: Node)
    requires Descending(InOrder(shape)) && a in Nodes(shape) && b in Nodes(shape) && a != b
    ensures a.name != b.name
  {
    NodesInOrder(shape, a);
    NodesInOrder(shape, b);
    var s := InOrder(shape);
    var i :| 0 <= i < |s| && s[i] == a;
    var j :| 0 <= j < |s| && s[j] == b;
    assert i < j || j < i;
    CompareEqual(a.name, b.name);
    CompareFlip(a.name, b.name);
  }

  lemma PositionOf(items: seq<Node>, k: nat)
    requires NamedOnce(items) && k < |items|
    ensures LruCache.Position(Entries(items), items[k].name) == k
  {
  }

  lemma PositionOfUnknown(items: seq<Node>, name: Name)
    requires forall i :: 0 <= i < |items| ==> items[i].name != name
    ensures LruCache.Position(Entries(items), name) == |items|
  {
  }

  /** The place of a node in the list. */
  lemma Place(items: seq<Node>, n: Node) returns (k: nat)
    requires n in Held(items)
    ensures k < |items| && items[k] == n
  {
    HeldIn(items, n);
    k :| k < |items| && items[k] == n;
  }

  /** The view goes from `c` to `c'` and the answer is `idx`, as LruCache says. */
  ghost predicate Answers(c: seq<LruCache.Entry>, max: int, name: Name, c': seq<LruCache.Entry>, idx: int) {
    && |c| <= max && 1 <= max && c' == LruCache.Find(c, max, name)
    && c' != [] && c'[|c'| - 1] == LruCache.Entry(name, idx)
  }

  lemma Planted(p: Trail, node: Node)
    requires Descending(Before(p) + [] + After(p)) && AllAbove(Before(p), node.name) && AllBelow(After(p), node.name)
    ensures Descending(Before(p) + [node] + After(p))
  {
    assert Before(p) + [] + After(p) == Before(p) + After(p);
    InsertDescending(Before(p), node, After(p));
  }

  lemma PendingKeys(tree: RBTree, node: Node, p: Trail)
    requires tree.Pending(node, p)
    ensures tree.cells.Keys == TrailNodes(p) + {node}
  {
  }

  class HevMappedDns {
    var use: nat
    const max: nat
    const net: word
    const mask: word
    const list: HevList
    const tree: RBTree
    const records: array<Node?>

    /** What the cache says, without the nodes. */
    ghost var view: seq<LruCache.Entry>

    /** The list and the tree hold the same nodes, in number `use`. */
    ghost predicate SameNodes()
      reads list, tree
    {
      && list.nodes == tree.cells.Keys
      && |InOrder(tree.shape)| == |list.items|
      && Descending(InOrder(tree.shape))
    }

    /** `records[0..use)` holds exactly the nodes of the tree, each at its own index; the
        slots from `use` up are null. */
    ghost predicate Indexed()
      reads `use, list, tree, records, tree.cells.Keys`idx
    {
      && 1 <= max == records.Length && max <= Signed(Not(mask)) && use == |list.items| <= max
      && (forall i :: 0 <= i < use ==> records[i] != null && records[i] in tree.cells.Keys && records[i].idx == i)
      && (forall i :: use <= i < max ==> records[i] == null)
      && (forall n :: n in tree.cells.Keys ==> 0 <= n.idx < use && records[n.idx] == n)
    }

    ghost predicate Sound()
      reads `use, list, tree, records, list.nodes, tree.cells.Keys
    {
      tree.Valid() && list.Valid() && SameNodes() && Indexed()
    }

    /** The three structures agree with each other and with the view. */
    ghost predicate Valid()
      reads this, list, tree, records, list.nodes, tree.cells.Keys
    {
      Sound() && view == Entries(list.items)
    }

    constructor (net: word, mask: word, max: int)
      requires 1 <= max <= Signed(Not(mask))
      ensures Valid() && view == []
      ensures this.net == net && this.mask == mask && this.max == max
    {
      use := 0;
      this.net, this.mask, this.max := net, mask, max;
      list := new HevList();
      tree := new RBTree();
      records := new Node?[max](_ => null);
      view := [];
    }

    /** `hev_mapped_dns_new` and `hev_mapped_dns_construct`: refuses exactly a cache that
        the host part of the mask cannot number. */
    static method Create(net: word, mask: word, max: int) returns (self: HevMappedDns?)
      requires 1 <= max
      ensures self == null <==> max > Signed(Not(mask))
      ensures self != null ==> fresh(self) && self.Valid() && self.view == []
    {
      self := null;
      if max > Signed(Not(mask)) {
        return;
      }
      self := new HevMappedDns(net, mask, max);
    }

    /** The walk of `hev_mapped_dns_find`: at most as many turns as the tree is high. */
    method Search(name: Name)
      returns (found: Node?, parent: Node?, slot: Slot, ghost p: Trail, ghost steps: nat)
      requires tree.Valid() && Descending(InOrder(tree.shape))
      ensures found != null ==> found in tree.cells && found.name == name
      ensures found == null ==>
        && At(tree.cells, tree.root, p, Leaf) && Plug(p, Leaf) == tree.shape
        && parent == Above(p) && slot == SlotOf(p)
        && AllAbove(Before(p), name) && AllBelow(After(p), name)
        && forall n :: n in tree.cells ==> n.name != name
      ensures steps <= Height(tree.shape)
    {
      var cur := tree.root;
      parent, slot, p, steps := null, TopSlot, AtRoot, 0;
      ghost var t := tree.shape;
      while cur != null
        invariant At(tree.cells, tree.root, p, t) && Plug(p, t) == tree.shape && Top(t) == cur
        invariant parent == Above(p) && slot == SlotOf(p) && steps == Depth(p)
        invariant AllAbove(Before(p), name) && AllBelow(After(p), name)
        decreases t
      {
        var res := Compare(cur.name, name);
        Descend(tree.cells, tree.root, p, t);
        parent := cur;
        steps := steps + 1;
        if res < 0 {
          GoLeft(p, t, name);
          slot, cur := LeftSlot(cur), cur.left;
          p, t := InLeft(p, t.color, t.item, t.right), t.left;
        } else if res > 0 {
          GoRight(p, t, name);
          slot, cur := RightSlot(cur), cur.right;
          p, t := InRight(p, t.color, t.left, t.item), t.right;
        } else {
          CompareEqual(cur.name, name);
          PlugHeight(p, t);
          return cur, parent, slot, p, steps;
        }
      }
      found := null;
      PlugHeight(p, t);
      NotThere(tree.cells, tree.root, p, name);
      Rise(tree.cells, tree.root, p, t);
    }

    /** The new node joins the tree where the search ended. */
    method Plant(node: Node, parent: Node?, slot: Slot, ghost p: Trail)
      requires tree.Valid() && Descending(InOrder(tree.shape)) && node !in tree.cells
      requires At(tree.cells, tree.root, p, Leaf) && Plug(p, Leaf) == tree.shape
      requires parent == Above(p) && slot == SlotOf(p)
      requires AllAbove(Before(p), node.name) && AllBelow(After(p), node.name)
      modifies tree, tree.cells.Keys`left, tree.cells.Keys`right, tree.cells.Keys`parent, tree.cells.Keys`color
      modifies node`left, node`right, node`parent, node`color
      ensures tree.Valid() && Descending(InOrder(tree.shape))
      ensures tree.cells.Keys == old(tree.cells.Keys) + {node}
      ensures |InOrder(tree.shape)| == old(|InOrder(tree.shape)|) + 1
    {
      hide Plug;
      PlugInOrder(p, Leaf);
      Planted(p, node);
      Rise(tree.cells, tree.root, p, Leaf);
      tree.Link(node, parent, slot, p);
      PendingKeys(tree, node, p);
      tree.InsertColor(node, p);
    }

    /** List operations leave the tree alone, and tree operations the list. */
    method Enlist(node: Node)
      requires tree.Valid() && list.Valid() && node !in list.nodes
      modifies list, list.nodes`next, node`next, node`prev
      ensures tree.Valid() && list.Valid() && list.items == old(list.items) + [node] &&
        list.nodes == old(list.nodes) + {node}
      ensures unchanged(tree)
    {
      list.AddTail(node);
    }

    method Delist(node: Node)
      requires tree.Valid() && list.Valid() && list.items != [] && list.items[0] == node
      modifies list, list.nodes`next, list.nodes`prev
      ensures tree.Valid() && list.Valid() && list.items == old(list.items[..0] + list.items[1..]) &&
        list.nodes == old(list.nodes) - {node}
      ensures unchanged(tree)
    {
      list.Del(node, 0);
    }

    /** The new node joins the tree and the tail of the list. */
    method Join(name: Name, parent: Node?, slot: Slot, ghost p: Trail) returns (node: Node)
      requires tree.Valid() && list.Valid() && Descending(InOrder(tree.shape))
      requires At(tree.cells, tree.root, p, Leaf) && Plug(p, Leaf) == tree.shape
      requires parent == Above(p) && slot == SlotOf(p)
      requires AllAbove(Before(p), name) && AllBelow(After(p), name)
      modifies tree, tree.cells.Keys`left, tree.cells.Keys`right, tree.cells.Keys`parent, tree.cells.Keys`color
      modifies list, list.nodes`next
      ensures fresh(node) && node.name == name
      ensures tree.Valid() && list.Valid() && Descending(InOrder(tree.shape))
      ensures tree.cells.Keys == old(tree.cells.Keys) + {node}
      ensures |InOrder(tree.shape)| == old(|InOrder(tree.shape)|) + 1
      ensures list.items == old(list.items) + [node]
    {
      hide RBTree.Valid;
      node := new Node(name);
      Plant(node, parent, slot, p);
      Enlist(node);
    }

    method Insert(name: Name, parent: Node?, slot: Slot, ghost p: Trail) returns (node: Node)
      requires tree.Valid() && list.Valid() && SameNodes()
      requires At(tree.cells, tree.root, p, Leaf) && Plug(p, Leaf) == tree.shape
      requires parent == Above(p) && slot == SlotOf(p)
      requires AllAbove(Before(p), name) && AllBelow(After(p), name)
      modifies tree, tree.cells.Keys`left, tree.cells.Keys`right, tree.cells.Keys`parent, tree.cells.Keys`color
      modifies list, list.nodes`next
      ensures fresh(node) && node.name == name
      ensures tree.Valid() && list.Valid() && SameNodes()
      ensures list.nodes == old(list.nodes) + {node}
      ensures list.items == old(list.items) + [node]
    {
      node := Join(name, parent, slot, p);
    }

    /** `node` leaves the tree; the rest stays in order. */
    method Uproot(node: Node)
      requires tree.Valid() && Descending(InOrder(tree.shape)) && node in tree.cells
      modifies tree, tree.cells.Keys`left, tree.cells.Keys`right, tree.cells.Keys`parent, tree.cells.Keys`color
      ensures tree.Valid() && Descending(InOrder(tree.shape))
      ensures tree.cells.Keys == old(tree.cells.Keys) - {node}
      ensures |InOrder(tree.shape)| == old(|InOrder(tree.shape)|) - 1
    {
      NodesInOrder(tree.shape, node);
      WithoutDescending(InOrder(tree.shape), node);
      tree.Erase(node);
    }

    /** The node at the head of the list leaves list and tree. */
    method Leave(node: Node)
      requires tree.Valid() && list.Valid() && Descending(InOrder(tree.shape))
      requires list.items != [] && list.items[0] == node && node in tree.cells
      modifies tree, tree.cells.Keys`left, tree.cells.Keys`right, tree.cells.Keys`parent, tree.cells.Keys`color
      modifies list, list.nodes`next, list.nodes`prev
      ensures tree.Valid() && list.Valid() && Descending(InOrder(tree.shape))
      ensures tree.cells.Keys == old(tree.cells.Keys) - {node}
      ensures |InOrder(tree.shape)| == old(|InOrder(tree.shape)|) - 1
      ensures list.items == old(list.items[..0] + list.items[1..]) && list.nodes == old(list.nodes) - {node}
    {
      Uproot(node);
      Delist(node);
    }

    /** The least recently touched node leaves tree and list and gives up its index. */
    method Evict() returns (idx: int)
      requires tree.Valid() && list.Valid() && SameNodes() && list.items != []
      modifies tree, tree.cells.Keys`left, tree.cells.Keys`right, tree.cells.Keys`parent, tree.cells.Keys`color
      modifies list, list.nodes`next, list.nodes`prev
      ensures tree.Valid() && list.Valid() && SameNodes()
      ensures list.nodes == old(list.nodes) - {old(list.items[0])}
      ensures idx == old(list.items[0].idx) && list.items == old(list.items[1..])
    {
      var nf := list.head;
      idx := nf.idx;
      FirstGone(list.items);
      Leave(nf);
    }
  
    /** Moves a known node to the tail: the touch of a hit in `find` and in `lookup`. */
    method Touch(node: Node, ghost k: nat)
      requires tree.Valid() && list.Valid() && k < |list.items| && list.items[k] == node
      modifies list, list.nodes`next, list.nodes`prev
      ensures tree.Valid() && list.Valid() && list.items == LruCache.ToTail(old(list.items), k)
      ensures unchanged(tree) && list.nodes == old(list.nodes)
    {
      list.Del(node, k);
      list.AddTail(node);
    }

    /** A hit changes the list and nothing else. */
    method Hit(node: Node, ghost k: nat)
      requires Sound() && k < |list.items| && list.items[k] == node
      modifies list, list.nodes`next, list.nodes`prev
      ensures Sound() && list.items == LruCache.ToTail(old(list.items), k)
      ensures unchanged(tree)
    {
      hide RBTree.Valid;
      Touch(node, k);
    }

    /** `hev_mapped_dns_find`, the name being known. */
    method FindKnown(node: Node) returns (idx: int)
      requires Sound() && node in tree.cells
      modifies list, list.nodes`next, list.nodes`prev
      ensures Sound() && unchanged(tree) && list.nodes == old(list.nodes)
      ensures Answers(old(Entries(list.items)), max, node.name, Entries(list.items), idx)
    {
      ghost var k := Place(list.items, node);
      KnownView(this, k);
      ghost var after, nodes := LruCache.ToTail(list.items, k), list.nodes;
      Hit(node, k);
      forall n | n in nodes ensures n.idx == old(n.idx) {}
      HeldAll(after);
      EntriesKept(after);
      idx := node.idx;
    }

    /** The new node stands in tree and list, but has no index yet. */
    ghost predicate IndexedBut()
      reads this, list, records, list.nodes`idx
    {
      && 1 <= max == records.Length && max <= Signed(Not(mask)) && use == |list.items| - 1 && use <= max
      && (forall i :: 0 <= i < use ==>
        records[i] != null && records[i] in list.nodes && records[i] != list.items[use] && records[i].idx == i)
      && (forall i :: use <= i < max ==> records[i] == null)
      && (forall n :: n in list.nodes && n != list.items[use] ==> 0 <= n.idx < use && records[n.idx] == n)
    }

    /** The index for the node just inserted: the next free one, or that of the oldest node,
        which is taken out after the new one is in. */
    method MakeRoom() returns (idx: int)
      requires tree.Valid() && list.Valid() && SameNodes() && list.items != []
      modifies `use, tree, tree.cells.Keys`left, tree.cells.Keys`right, tree.cells.Keys`parent, tree.cells.Keys`color
      modifies list, list.nodes`next, list.nodes`prev
      ensures tree.Valid() && list.Valid() && SameNodes()
      ensures old(use) < max ==>
        idx == old(use) && use == old(use) + 1 && list.items == old(list.items) && list.nodes == old(list.nodes)
      ensures old(use) >= max ==>
        && idx == old(list.items[0].idx) && use == old(use)
        && list.nodes == old(list.nodes) - {old(list.items[0])}
        && list.items == old(list.items[1..])
      ensures forall n :: n in old(list.nodes) ==> n.idx == old(n.idx)
    {
      ghost var m := list.nodes;
      idx := use;
      if use < max {
        use := use + 1;
      } else {
        idx := Evict();
        forall n | n in m ensures n.idx == old(n.idx) {}
      }
    }

    /** The two last stores of `hev_mapped_dns_find`. */
    method File(node: Node, idx: int)
      requires tree.Valid() && list.Valid() && SameNodes() && 0 <= idx < records.Length
      modifies records, node`idx
      ensures tree.Valid() && list.Valid() && SameNodes()
      ensures records[..] == old(records[..])[idx := node] && node.idx == idx
    {
      hide RBTree.Valid;
      hide HevList.Valid;
      records[idx] := node;
      node.idx := idx;
    }

    /** All that giving the new node its index changes. */
    twostate predicate Finished(idx: int, nodes: set<Node>)
      reads this, list, records, nodes`idx
    {
      && nodes == old(list.nodes) && 0 <= old(use) < |old(list.items)|
      && var node := old(list.items[use]);
      && node in nodes && 0 <= idx < records.Length && records[..] == old(records[..])[idx := node] && node.idx == idx
      && (forall n :: n in nodes && n != node ==> n.idx == old(n.idx))
      && (old(use) < max ==>
            idx == old(use) && use == old(use) + 1 && list.items == old(list.items) && list.nodes == nodes)
      && (old(use) >= max && old(list.items) != [] ==>
            && idx == old(list.items[0].idx) && use == old(use)
            && list.nodes == nodes - {old(list.items[0])} && list.items == old(list.items[1..]))
    }

    method Finish(node: Node) returns (idx: int)
      requires tree.Valid() && list.Valid() && SameNodes() && IndexedBut() && node == list.items[use]
      modifies `use, tree, tree.cells.Keys`left, tree.cells.Keys`right, tree.cells.Keys`parent, tree.cells.Keys`color
      modifies list, list.nodes`next, list.nodes`prev, records, node`idx
      ensures tree.Valid() && list.Valid() && SameNodes()
      ensures Finished(idx, old(list.nodes))
    {
      hide RBTree.Valid;
      ghost var m := list.nodes;
      idx := MakeRoom();
      File(node, idx);
      forall n | n in m && n != node ensures n.idx == old(n.idx) {}
    }

    /** Everything after the insertion, seen through the view. */
    method Complete(node: Node) returns (idx: int)
      requires tree.Valid() && list.Valid() && SameNodes() && IndexedBut() && node == list.items[use]
      modifies `use, tree, tree.cells.Keys`left, tree.cells.Keys`right, tree.cells.Keys`parent, tree.cells.Keys`color
      modifies list, list.nodes`next, list.nodes`prev, records, node`idx
      ensures Sound() && list.nodes <= old(list.nodes)
      ensures Entries(list.items) == Appended(old(Entries(list.items[..use])), max, node.name)
      ensures idx == AppendedIndex(old(Entries(list.items[..use])), max)
    {
      label L:
      idx := Finish(node);
      FinishedIndexed@L(this);
      FinishedView@L(this);
    }

    /** The new node is in, without an index; nothing else about indices has changed. */
    method Begin(name: Name, parent: Node?, slot: Slot, ghost p: Trail) returns (node: Node)
      requires Sound()
      requires At(tree.cells, tree.root, p, Leaf) && Plug(p, Leaf) == tree.shape
      requires parent == Above(p) && slot == SlotOf(p)
      requires AllAbove(Before(p), name) && AllBelow(After(p), name)
      modifies tree, tree.cells.Keys`left, tree.cells.Keys`right, tree.cells.Keys`parent, tree.cells.Keys`color
      modifies list, list.nodes`next
      ensures fresh(node) && node.name == name
      ensures tree.Valid() && list.Valid() && SameNodes() && IndexedBut() && node == list.items[use]
      ensures list.items[..use] == old(list.items)
      ensures list.nodes == old(list.nodes) + {node} && list.items == old(list.items) + [node]
      ensures forall n :: n in old(list.nodes) ==> n.idx == old(n.idx)
    {
      hide RBTree.Valid;
      hide HevList.Valid;
      ghost var m := list.nodes;
      node := Insert(name, parent, slot, p);
      OldestFirst(old(list.items), node);
      forall n | n in m ensures n.idx == old(n.idx) {}
    }

    /** `hev_mapped_dns_find`, the name being new. */
    method FindNew(name: Name, parent: Node?, slot: Slot, ghost p: Trail) returns (idx: int)
      requires Sound()
      requires var c := Entries(list.items); Answers(c, max, name, Appended(c, max, name), AppendedIndex(c, max))
      requires At(tree.cells, tree.root, p, Leaf) && Plug(p, Leaf) == tree.shape
      requires parent == Above(p) && slot == SlotOf(p)
      requires AllAbove(Before(p), name) && AllBelow(After(p), name)
      modifies `use, list, tree, records, tree.cells.Keys, list.nodes
      ensures Sound() && fresh(list.nodes - old(list.nodes))
      ensures Answers(old(Entries(list.items)), max, name, Entries(list.items), idx)
    {
      hide RBTree.Valid;
      HeldAll(list.items);
      var node := Begin(name, parent, slot, p);
      EntriesKept(old(list.items));
      idx := Complete(node);
    }

    /** The search, seen through the view. */
    method Consult(name: Name)
      returns (found: Node?, parent: Node?, slot: Slot, ghost p: Trail, ghost steps: nat)
      requires Sound()
      ensures found != null ==> found in tree.cells && found.name == name
      ensures found == null ==>
        var c := Entries(list.items); Answers(c, max, name, Appended(c, max, name), AppendedIndex(c, max))
      ensures found == null ==>
        && At(tree.cells, tree.root, p, Leaf) && Plug(p, Leaf) == tree.shape
        && parent == Above(p) && slot == SlotOf(p)
        && AllAbove(Before(p), name) && AllBelow(After(p), name)
      ensures ColoredTree.Pow2(steps) <= (use + 1) * (use + 1)
    {
      hide RBTree.Valid, HevList.Valid, HevMappedDns.Indexed, At, Plug, AllAbove, AllBelow, Answers;
      found, parent, slot, p, steps := Search(name);
      Shallow(this, steps);
      if found == null {
        Unknown(this, name);
      }
    }

    /** `hev_mapped_dns_find`: the index of `name`, in no more turns of the search than twice
        the logarithm of the number of names. */
    method Find(name: Name) returns (idx: int, ghost steps: nat)
      requires Valid()
      modifies this, list, tree, records, tree.cells.Keys, list.nodes
      ensures Valid() && fresh(list.nodes - old(list.nodes))
      ensures Answers(old(view), max, name, view, idx)
      ensures ColoredTree.Pow2(steps) <= (|old(view)| + 1) * (|old(view)| + 1)
    {
      hide HevMappedDns.Sound, Answers, Entries;
      ViewSize(this);
      idx, steps := FindEntry(name);
      Observe();
    }

    method FindEntry(name: Name) returns (idx: int, ghost steps: nat)
      requires Sound()
      modifies `use, list, tree, records, tree.cells.Keys, list.nodes
      ensures Sound() && fresh(list.nodes - old(list.nodes))
      ensures Answers(old(Entries(list.items)), max, name, Entries(list.items), idx)
      ensures ColoredTree.Pow2(steps) <= (old(use) + 1) * (old(use) + 1)
    {
      hide HevMappedDns.Sound, At, Plug, AllAbove, AllBelow, Answers, Appended, AppendedIndex, Entries;
      var found, parent, slot;
      ghost var p;
      found, parent, slot, p, steps := Consult(name);
      if found != null {
        idx := FindKnown(found);
      } else {
        idx := FindNew(name, parent, slot, p);
      }
    }

    ghost method Observe()
      requires Sound()
      modifies `view
      ensures Valid() && view == Entries(list.items)
    {
      view := Entries(list.items);
      assert tree.Valid();
      assert list.Valid();
      assert Indexed();
      assert SameNodes();
    }

    method LookupKnown(node: Node) returns (name: Option<Name>)
      requires Sound() && node in tree.cells
      modifies list, list.nodes`next, list.nodes`prev
      ensures Sound() && unchanged(tree) && list.nodes == old(list.nodes)
      ensures LooksUp(old(Entries(list.items)), old(node.idx), Entries(list.items), name)
    {
      ghost var k := Place(list.items, node);
      HitSlot(this, k);
      ghost var after, nodes := LruCache.ToTail(list.items, k), list.nodes;
      Hit(node, k);
      forall n | n in nodes ensures n.idx == old(n.idx) {}
      HeldAll(after);
      EntriesKept(after);
      name := Some(node.name);
    }

    /** `hev_mapped_dns_lookup`: the name behind an address, if any; finding it touches it. */
    method Lookup(ip: word) returns (name: Option<Name>)
      requires Valid()
      modifies `view, list, list.nodes`next, list.nodes`prev
      ensures Valid() && list.nodes == old(list.nodes)
      ensures LooksUp(old(view), HostIndex(ip, mask), view, name)
    {
      hide HevMappedDns.Sound;
      name := LookupEntry(ip);
      Observe();
    }

    method LookupEntry(ip: word) returns (name: Option<Name>)
      requires Sound()
      modifies list, list.nodes`next, list.nodes`prev
      ensures Sound() && unchanged(tree) && list.nodes == old(list.nodes)
      ensures LooksUp(old(Entries(list.items)), HostIndex(ip, mask), Entries(list.items), name)
    {
      var idx := HostIndex(ip, mask);
      NoSlot(this, idx);
      AndBelow(ip, mask);
      if idx >= max {
        return None;
      }
      var node := records[idx];
      if node == null {
        return None;
      }
      name := LookupKnown(node);
    }
  }

  /** `ip & ~mask`, read as an `int`. */
  function HostIndex(ip: word, mask: word): int {
    Signed(And(ip, Not(mask)))
  }

  /** The address that stands for the index `idx`. */
  predicate IsAddress(ip: word, net: word, idx: int) {
    0 <= idx && ip == Or(net, idx)
  }

  /** The network has no host bits, and the host part of the mask holds every index. */
  ghost predicate Covers(net: word, mask: word, max: nat) {
    && max <= Signed(Not(mask)) && And(net, Not(mask)) == 0
    && forall i :: 0 <= i < max ==> InHost(Not(mask), i)
  }

  /** The address of an entry looks up to its name. */
  lemma EntryLooksUp(view: seq<LruCache.Entry>, max: nat, net: word, mask: word, e: LruCache.Entry, ip: word)
    requires LruCache.Wf(view, max) && e in view && IsAddress(ip, net, e.idx) && Covers(net, mask, max)
    ensures LooksUp(view, HostIndex(ip, mask), LruCache.Lookup(view, HostIndex(ip, mask)), Some(e.name))
  {
    var k :| 0 <= k < |view| && view[k] == e;
    SlotAt(view, max, k);
    assert InHost(Not(mask), e.idx);
    OneComesBack(net, Not(mask), e.idx);
    assert ComesBack(net, Not(mask), e.idx);
  }

  /** The round trip the cache is for: the address handed out for a name looks up to it. */
  lemma FindThenLookup(c: seq<LruCache.Entry>, max: nat, net: word, mask: word, name: Name, c': seq<LruCache.Entry>,
      idx: int, ip: word)
    requires LruCache.Wf(c, max) && Answers(c, max, name, c', idx)
    requires IsAddress(ip, net, idx) && Covers(net, mask, max)
    ensures LooksUp(c', HostIndex(ip, mask), c', Some(name))
  {
    LruCache.LookupFind(c, max, name);
    LruCache.FindWf(c, max, name);
    EntryLooksUp(c', max, net, mask, LruCache.Entry(name, idx), ip);
  }

  /** A mask whose host part is contiguous covers every index a cache can have. */
  lemma ContiguousCovers(net: word, mask: word, max: nat, k: nat)
    requires Not(mask) == Word.Pow2(k) - 1 && And(net, Not(mask)) == 0 && max <= Signed(Not(mask))
    ensures Covers(net, mask, max)
  {
    forall i | 0 <= i < max ensures InHost(Not(mask), i) {
      AndContiguous(i, k);
    }
  }

  lemma ViewSize(d: HevMappedDns)
    requires d.Sound()
    ensures |Entries(d.list.items)| == d.use
  {
  }

  ghost predicate LooksUp(c: seq<LruCache.Entry>, idx: int, c': seq<LruCache.Entry>, name: Option<Name>) {
    && c' == LruCache.Lookup(c, idx)
    && name == if LruCache.Slot(c, idx) < |c| then Some(c[LruCache.Slot(c, idx)].name) else None
  }

  /** An index that is out of range or unused is in no entry. */
  lemma NoSlot(d: HevMappedDns, idx: int)
    requires d.Sound()
    ensures idx >= d.max || (0 <= idx && d.records[idx] == null) ==>
      LooksUp(Entries(d.list.items), idx, Entries(d.list.items), None)
  {
    HeldAll(d.list.items);
  }

  lemma HitSlot(d: HevMappedDns, k: nat)
    requires d.Sound() && k < |d.list.items|
    ensures var c := Entries(d.list.items);
      LooksUp(c, d.list.items[k].idx, Entries(LruCache.ToTail(d.list.items, k)), Some(d.list.items[k].name))
  {
    ViewWf(d);
    EntriesToTail(d.list.items, k);
    SlotAt(Entries(d.list.items), d.max, k);
  }

  lemma SlotAt(c: seq<LruCache.Entry>, max: nat, k: nat)
    requires LruCache.Wf(c, max) && k < |c|
    ensures LruCache.Slot(c, c[k].idx) == k
  {
  }

  lemma AndBelow(ip: word, mask: word)
    ensures Signed(Not(mask)) >= 0 ==> 0 <= Signed(And(ip, Not(mask))) == And(ip, Not(mask))
  {
  }

  lemma Shallow(d: HevMappedDns, steps: nat)
    requires d.Sound() && steps <= Height(d.tree.shape)
    ensures ColoredTree.Pow2(steps) <= (d.use + 1) * (d.use + 1)
  {
    HeightBound(d.tree.shape);
    ColoredTree.Pow2Mono(steps, Height(d.tree.shape));
  }

  lemma Unknown(d: HevMappedDns, name: Name)
    requires d.Sound() && forall n :: n in d.tree.cells ==> n.name != name
    ensures var c := Entries(d.list.items); Answers(c, d.max, name, Appended(c, d.max, name), AppendedIndex(c, d.max))
  {
    HeldAll(d.list.items);
    NewView(d.list.items, d.max, name);
  }

  twostate lemma FinishedIndexed(d: HevMappedDns)
    requires old(d.IndexedBut()) && old(d.list.Valid()) && d.Finished(old(d.list.items[d.use]).idx, old(d.list.nodes))
    requires d.list.nodes == d.tree.cells.Keys
    ensures d.Indexed()
  {
  }

  /** The view after `Finish`, in terms of the entries before the new node came in. */
  twostate lemma FinishedView(d: HevMappedDns)
    requires old(d.IndexedBut()) && old(d.list.Valid()) && d.Finished(old(d.list.items[d.use]).idx, old(d.list.nodes))
    ensures var c := old(Entries(d.list.items[..d.use]));
      && Entries(d.list.items) == Appended(c, d.max, old(d.list.items[d.use].name))
      && old(d.list.items[d.use]).idx == AppendedIndex(c, d.max)
  {
    if old(d.use) < d.max {
      FinishedNext(d);
    } else {
      FinishedOver(d);
    }
  }

  twostate lemma FinishedNext(d: HevMappedDns)
    requires old(d.IndexedBut()) && old(d.list.Valid()) && d.Finished(old(d.list.items[d.use]).idx, old(d.list.nodes))
    requires old(d.use) < d.max
    ensures Entries(d.list.items) == old(Entries(d.list.items[..d.use])) +
      [LruCache.Entry(old(d.list.items[d.use].name), old(d.list.items[d.use]).idx)]
    ensures old(d.list.items[d.use]).idx == old(d.use)
  {
    var was := old(d.list.items);
    var u := old(d.use);
    assert d.list.items == was;
    forall i | 0 <= i < u ensures was[i].idx == old(was[i].idx) {
      assert was[i] != was[u];
    }
  }

  twostate lemma FinishedOver(d: HevMappedDns)
    requires old(d.IndexedBut()) && old(d.list.Valid()) && d.Finished(old(d.list.items[d.use]).idx, old(d.list.nodes))
    requires old(d.use) >= d.max
    ensures Entries(d.list.items) == old(Entries(d.list.items[..d.use]))[1..] +
      [LruCache.Entry(old(d.list.items[d.use].name), old(d.list.items[d.use]).idx)]
    ensures old(d.list.items[d.use]).idx == old(d.list.items[0].idx)
  {
    hide Entries;
    var was := old(d.list.items);
    var u := old(d.use);
    assert d.list.items == was[1..];
    forall i | 0 <= i < u ensures was[i].idx == old(was[i].idx) {
      assert was[i] != was[u];
    }
  }

  /** The view once `name`, which it does not know, has come in. */
  ghost function Appended(c: seq<LruCache.Entry>, max: int, name: Name): seq<LruCache.Entry> {
    if c == [] || |c| < max then c + [LruCache.Entry(name, |c|)] else c[1..] + [LruCache.Entry(name, c[0].idx)]
  }

  ghost function AppendedIndex(c: seq<LruCache.Entry>, max: int): int {
    if c == [] || |c| < max then |c| else c[0].idx
  }

  lemma NewView(items: seq<Node>, max: nat, name: Name)
    requires |items| <= max && 1 <= max
    requires forall i :: 0 <= i < |items| ==> items[i].name != name
    ensures var c := Entries(items); Answers(c, max, name, Appended(c, max, name), AppendedIndex(c, max))
  {
    hide Entries, LruCache.Position, LruCache.Find, Answers, Appended, AppendedIndex;
    PositionOfUnknown(items, name);
    UnknownAnswers(Entries(items), max, name);
  }

  lemma UnknownAnswers(c: seq<LruCache.Entry>, max: nat, name: Name)
    requires |c| <= max && 1 <= max && LruCache.Position(c, name) == |c|
    ensures Answers(c, max, name, Appended(c, max, name), AppendedIndex(c, max))
  {
    hide LruCache.Position;
  }

  /** The list the cache keeps is a well-formed cache in the sense of LruCache. */
  lemma ViewWf(d: HevMappedDns)
    requires d.Sound()
    ensures LruCache.Wf(Entries(d.list.items), d.max)
    ensures NamedOnce(d.list.items)
  {
    var items := d.list.items;
    ListedOnce(items, d.tree.shape);
    IndicesWf(d);
  }

  /** What a hit of the k-th entry makes of the view. */
  lemma KnownView(d: HevMappedDns, k: nat)
    requires d.Sound() && k < |d.list.items|
    ensures LruCache.Find(Entries(d.list.items), d.max, d.list.items[k].name) ==
      Entries(LruCache.ToTail(d.list.items, k))
    ensures LruCache.FindIndex(Entries(d.list.items), d.max, d.list.items[k].name) == d.list.items[k].idx
  {
    ViewWf(d);
    PositionOf(d.list.items, k);
    EntriesToTail(d.list.items, k);
    LruCache.ToTailAt(Entries(d.list.items), k);
  }

  lemma IndicesWf(d: HevMappedDns)
    requires d.Indexed() && d.list.Valid() && d.list.nodes == d.tree.cells.Keys && NamedOnce(d.list.items)
    ensures LruCache.Wf(Entries(d.list.items), d.max)
  {
    var items := d.list.items;
    forall i | 0 <= i < |items| ensures 0 <= items[i].idx < d.use && d.records[items[i].idx] == items[i] {
      HeldIn(items, items[i]);
    }
  }
}
