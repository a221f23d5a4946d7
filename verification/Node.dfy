/**
 The record that the mapped-DNS cache allocates for one name. The C structure
 embeds a tree node and a list node and moves between the three with
 `container_of`; here the embedded links are fields of the one object.

 The C tree node packs its parent pointer and its colour into one word. The two
 halves are separate fields here: a node is aligned, so the packing loses nothing.
 */
module DnsNode {
  import opened Bytes
  import opened ColoredTree

  class Node {
    // HevRBTreeNode
    var parent: Node?
    var color: Color
    var left: Node?
    var right: Node?

    // HevListNode
    var next: Node?
    var prev: Node?

    // HevMappedDNSNode
    const name: Name
    var idx: int

    constructor (name: Name)
      ensures this.name == name && idx == 0
      ensures left == null && right == null && parent == null && color == Red
      ensures next == null && prev == null
    {
      this.name := name;
      idx := 0;
      left, right, parent, color := null, null, null, Red;
      next, prev := null, null;
    }
  }
}
