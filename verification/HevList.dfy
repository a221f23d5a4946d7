/** The doubly linked list that keeps the cache's names in the order of their last touch. */
module HevLists {
  import opened DnsNode

  /** The set of listed nodes, built up by recursion so that proofs unfold it on demand. */
  ghost function Held(items: seq<Node>): set<Node> {
    if items == [] then {} else Held(items[..|items| - 1]) + {items[|items| - 1]}
  }

  lemma {:induction false} HeldIn(items: seq<Node>, n: Node)
    ensures n in Held(items) <==> n in items
  {
    if items != [] {
      HeldIn(items[..|items| - 1], n);
    }
  }

  lemma HeldAdd(items: seq<Node>, n: Node)
    ensures Held(items + [n]) == Held(items) + {n}
  {
    assert (items + [n])[..|items|] == items;
  }

  lemma {:induction false} HeldConcat(a: seq<Node>, b: seq<Node>)
    ensures Held(a + b) == Held(a) + Held(b)
  {
    if b == [] {
      assert a + b == a;
    } else {
      HeldConcat(a, b[..|b| - 1]);
      assert (a + b)[..|a + b| - 1] == a + b[..|b| - 1];
    }
  }

  ghost predicate Once(items: seq<Node>) {
    forall i, j :: 0 <= i < j < |items| ==> items[i] != items[j]
  }

  lemma HeldOne(x: Node)
    ensures Held([x]) == {x}
  {
    assert [x][..0] == [];
  }

  lemma HeldDel(items: seq<Node>, k: nat)
    requires k < |items| && Once(items)
    ensures Held(items[..k] + items[k + 1..]) == Held(items) - {items[k]}
  {
    hide Held;
    var a, x, b := items[..k], items[k], items[k + 1..];
    assert items == a + ([x] + b);
    HeldConcat(a, [x] + b);
    HeldConcat([x], b);
    HeldConcat(a, b);
    HeldIn(a, x);
    HeldIn(b, x);
    HeldOne(x);
  }

  class HevList {
    var head: Node?
    var tail: Node?
    ghost var items: seq<Node>
    ghost var nodes: set<Node>

    /** Following `next` from `head`, or `prev` from `tail`, meets exactly `items`. */
    ghost predicate Valid()
      reads this, nodes`next, nodes`prev
    {
      && nodes == Held(items)
      && (forall i :: 0 <= i < |items| ==> items[i] in nodes)
      && Once(items)
      && (if items == [] then head == tail == null
          else
            && head == items[0] && head.prev == null
            && tail == items[|items| - 1] && tail.next == null)
      && (forall i, j :: 0 <= i && j == i + 1 && j < |items| ==> items[i].next == items[j] && items[j].prev == items[i])
    }

    constructor ()
      ensures Valid() && items == []
    {
      head, tail := null, null;
      items := [];
      nodes := {};
    }

    /** `hev_list_add_tail` */
    method AddTail(node: Node)
      requires Valid() && node !in nodes
      modifies this, nodes`next, node`next, node`prev
      ensures Valid() && items == old(items) + [node] && nodes == old(nodes) + {node}
    {
      hide Held;
      HeldAdd(items, node);
      node.prev := tail;
      node.next := null;
      if tail != null {
        tail.next := node;
      } else {
        head := node;
      }
      tail := node;
      items := items + [node];
      nodes := nodes + {node};
    }

    /** The stores of `hev_list_del`; the links of the deleted node itself stay as they were. */
    method Unlink(node: Node, ghost k: nat)
      requires Valid() && k < |items| && items[k] == node
      modifies `head, `tail, nodes`next, nodes`prev
      ensures head == if k == 0 then old(node.next) else old(head)
      ensures tail == if k == |items| - 1 then old(node.prev) else old(tail)
      ensures forall i :: 0 <= i < |items| ==>
        items[i].next == if i == k - 1 then old(node.next) else old(items[i].next)
      ensures forall i :: 0 <= i < |items| ==>
        items[i].prev == if i == k + 1 then old(node.prev) else old(items[i].prev)
    {
      assert k > 0 ==> items[k - 1].next == node;
      assert k + 1 < |items| ==> items[k + 1].prev == node;
      if node.prev != null {
        node.prev.next := node.next;
      } else {
        head := node.next;
      }
      if node.next != null {
        node.next.prev := node.prev;
      } else {
        tail := node.prev;
      }
    }

    /** `hev_list_del` */
    method Del(node: Node, ghost k: nat)
      requires Valid() && k < |items| && items[k] == node
      modifies this, nodes`next, nodes`prev
      ensures Valid() && items == old(items[..k] + items[k + 1..]) && nodes == old(nodes) - {node}
    {
      hide Held, Once;
      HeldDel(items, k);
      ghost var before := items;
      Unlink(node, k);
      Spliced(before, k, head, tail);
      items := items[..k] + items[k + 1..];
      nodes := nodes - {node};
      CutOut(before, k);
    }
  }

  /** The list without its k-th element, element by element. */
  lemma CutOut(s: seq<Node>, k: nat)
    requires k < |s| && Once(s)
    ensures var r := s[..k] + s[k + 1..];
      && |r| == |s| - 1 && Once(r) && forall i :: 0 <= i < |r| ==> r[i] == s[if i < k then i else i + 1] && r[i] != s[k]
  {
  }

  /** The links around the k-th element lead past it. */
  lemma Spliced(s: seq<Node>, k: nat, head: Node?, tail: Node?)
    requires k < |s| && Once(s)
    requires forall i, j :: 0 <= i && j == i + 1 && j < |s| && i != k && j != k ==>
      s[i].next == s[j] && s[j].prev == s[i]
    requires 0 < k < |s| - 1 ==> s[k - 1].next == s[k + 1] && s[k + 1].prev == s[k - 1]
    requires head == if k > 0 then s[0] else if |s| == 1 then null else s[1]
    requires tail == if k < |s| - 1 then s[|s| - 1] else if |s| == 1 then null else s[k - 1]
    requires head != null ==> head.prev == null
    requires tail != null ==> tail.next == null
    ensures var r := s[..k] + s[k + 1..];
      && (if r == [] then head == tail == null else head == r[0] && tail == r[|r| - 1])
      && forall i, j :: 0 <= i && j == i + 1 && j < |r| ==> r[i].next == r[j] && r[j].prev == r[i]
  {
    CutOut(s, k);
  }
}
