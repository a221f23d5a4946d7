/**
 The intrusive red-black tree: insertion repair, erasure, erasure repair and the
 in-order walk, on nodes linked in place.
 */
module RbTree {
  import opened ColoredTree
  import opened DnsNode
  import opened RbLayout

  /** `hev_rbtree_node_empty`: the packed word is the node's own address, coloured red. */
  predicate Empty(n: Node)
    reads n
  {
    n.parent == n && n.color == Red
  }

  class RBTree {
    var root: Node?
    ghost var cells: Cells
    ghost var shape: Shape

    /** The ghost cells are the real fields of the nodes. */
    ghost predicate Mirror()
      reads this`cells, cells.Keys`parent, cells.Keys`color, cells.Keys`left, cells.Keys`right
    {
      forall n :: n in cells ==> cells[n] == Cell(n.parent, n.color, n.left, n.right)
    }

    // -------------------------------------------------------------- single stores

    method SetLeft(n: Node, child: Node?)
      requires Mirror() && n in cells
      modifies this`cells, n`left
      ensures Mirror() && cells.Keys == old(cells.Keys)
      ensures cells == old(cells)[n := old(cells)[n].(left := child)]
    {
      n.left := child;
      cells := cells[n := cells[n].(left := child)];
    }

    method SetRight(n: Node, child: Node?)
      requires Mirror() && n in cells
      modifies this`cells, n`right
      ensures Mirror() && cells.Keys == old(cells.Keys)
      ensures cells == old(cells)[n := old(cells)[n].(right := child)]
    {
      n.right := child;
      cells := cells[n := cells[n].(right := child)];
    }

    method SetParentColor(n: Node, parent: Node?, color: Color)
      requires Mirror() && n in cells
      modifies this`cells, n`parent, n`color
      ensures Mirror() && cells.Keys == old(cells.Keys)
      ensures cells == old(cells)[n := old(cells)[n].(parent := parent, color := color)]
    {
      n.parent := parent;
      n.color := color;
      cells := cells[n := cells[n].(parent := parent, color := color)];
    }

    method SetParent(n: Node, parent: Node?)
      requires Mirror() && n in cells
      modifies this`cells, n`parent
      ensures Mirror() && cells.Keys == old(cells.Keys)
      ensures cells == old(cells)[n := old(cells)[n].(parent := parent)]
    {
      n.parent := parent;
      cells := cells[n := cells[n].(parent := parent)];
    }

    /** Hangs `now` where `was` hung. */
    method ChangeChild(was: Node, now: Node?, parent: Node?, ghost p: Trail)
      requires Mirror() && Hangs(cells, p, was) && parent == Above(p)
      modifies this`root, this`cells, cells.Keys`left, cells.Keys`right
      ensures Mirror() && Hung(old(cells), cells, p, now) && root == HangRoot(old(root), p, now)
      ensures cells.Keys == old(cells.Keys) && Agree(old(cells), cells, Only(parent))
      ensures (p.AtRoot? || p.item in old(cells)) && cells == HangAt(old(cells), p, now)
    {
      if parent != null {
        if parent.left == was {
          SetLeft(parent, now);
        } else {
          SetRight(parent, now);
        }
      } else {
        root := now;
      }
    }

    /** The new top takes the old one's parent and colour; the old one hangs below it. */
    method RotateSetParents(was: Node, now: Node, color: Color, ghost p: Trail)
      requires Mirror() && was in cells && now in cells && was != now
      requires Above(p) != was && Above(p) != now
      requires Hangs(cells, p, was) && cells[was].parent == Above(p)
      modifies this`root, this`cells, cells.Keys`left, cells.Keys`right, cells.Keys`parent, cells.Keys`color
      ensures Mirror() && cells.Keys == old(cells.Keys)
      ensures Reparented(old(cells), cells, p, was, now, color) && root == HangRoot(old(root), p, now)
    {
      var parent := was.parent;
      SetParentColor(now, was.parent, was.color);
      SetParentColor(was, now, color);
      ChangeChild(was, now, parent, p);
    }

    // -------------------------------------------------------------- insertion repair

    /** Case 1: node's uncle is red; the colours flip and the trouble moves up. */
    method InsertCase1(tmp: Node, parent: Node, g: Node, ghost up: Trail, ghost l: Shape, ghost r: Shape)
      requires Mirror() && At(cells, root, up, Tree.Node(Black, l, g, r))
      requires l.Node? && r.Node?
      requires (tmp == l.item && parent == r.item) || (tmp == r.item && parent == l.item)
      modifies this`cells, cells.Keys`parent, cells.Keys`color
      ensures Mirror() && cells.Keys == old(cells.Keys)
      ensures At(cells, root, up, Tree.Node(Red, l.(color := Black), g, r.(color := Black)))
    {
      ghost var l', r' := l.(color := Black), r.(color := Black);
      if tmp == r.item {
        RepaintRight(cells, root, up, Black, l, g, r, Black);
      } else {
        RepaintLeft(cells, root, up, Black, l, g, r, Black);
      }
      SetParentColor(tmp, g, Black);
      if tmp == r.item {
        RepaintLeft(cells, root, up, Black, l, g, r', Black);
      } else {
        RepaintRight(cells, root, up, Black, l', g, r, Black);
      }
      SetParentColor(parent, g, Black);
      Repaint(cells, root, up, Tree.Node(Black, l', g, r'), Red);
      SetParentColor(g, g.parent, Red);
    }

    /** Case 2: node is parent's right child; left rotate at parent. */
    method InsertCase2Left(node: Node, parent: Node)
      requires Mirror() && node in cells && parent in cells && node != parent && node.left != node &&
        node.left != parent
      requires node.left != null ==> node.left in cells
      modifies this`cells, cells.Keys`left, cells.Keys`right, cells.Keys`parent, cells.Keys`color
      ensures Mirror() && cells.Keys == old(cells.Keys)
      ensures cells == Case2Left(old(cells), node, parent, old(node.left))
    {
      var tmp := node.left;
      SetRight(parent, tmp);
      SetLeft(node, parent);
      if tmp != null {
        SetParentColor(tmp, parent, Black);
      }
      SetParentColor(parent, node, Red);
    }

    method InsertCase2Right(node: Node, parent: Node)
      requires Mirror() && node in cells && parent in cells && node != parent && node.right != node &&
        node.right != parent
      requires node.right != null ==> node.right in cells
      modifies this`cells, cells.Keys`left, cells.Keys`right, cells.Keys`parent, cells.Keys`color
      ensures Mirror() && cells.Keys == old(cells.Keys)
      ensures cells == Case2Right(old(cells), node, parent, old(node.right))
    {
      var tmp := node.right;
      SetLeft(parent, tmp);
      SetRight(node, parent);
      if tmp != null {
        SetParentColor(tmp, parent, Black);
      }
      SetParentColor(parent, node, Red);
    }

    /** Case 3: right rotate at the grandparent. */
    method InsertCase3Left(g: Node, parent: Node, tmp: Node?, ghost up: Trail)
      requires Mirror() && Ready(cells, up, parent, tmp, g, g)
      requires tmp != null ==> cells[tmp].color == Black
      modifies this`root, this`cells, cells.Keys`left, cells.Keys`right, cells.Keys`parent, cells.Keys`color
      ensures Mirror() && cells.Keys == old(cells.Keys) && root == HangRoot(old(root), up, parent)
      ensures RotatedRight(old(cells), cells, up, parent, tmp, g, old(cells)[g].color, Red)
    {
      ghost var m := cells;
      SetLeft(g, tmp);
      SetRight(parent, g);
      if tmp != null {
        SetParentColor(tmp, g, Black);
      }
      RotateSetParents(g, parent, Red, up);
      StoresRotateRight(m, cells, up, parent, tmp, g, Red, Black);
    }

    method InsertCase3Right(g: Node, parent: Node, tmp: Node?, ghost up: Trail)
      requires Mirror() && Ready(cells, up, g, tmp, parent, g)
      requires tmp != null ==> cells[tmp].color == Black
      modifies this`root, this`cells, cells.Keys`left, cells.Keys`right, cells.Keys`parent, cells.Keys`color
      ensures Mirror() && cells.Keys == old(cells.Keys) && root == HangRoot(old(root), up, parent)
      ensures RotatedLeft(old(cells), cells, up, g, tmp, parent, Red, old(cells)[g].color)
    {
      ghost var m := cells;
      SetRight(g, tmp);
      SetLeft(parent, g);
      if tmp != null {
        SetParentColor(tmp, g, Black);
      }
      RotateSetParents(g, parent, Red, up);
      StoresRotateLeft(m, cells, up, g, tmp, parent, Red, Black);
    }

    /** Cases 2 and 3 in a row, parent being the grandparent's left child. */
    method InsertInnerLeft(node: Node, parent: Node, g: Node, ghost up: Trail, ghost l: Shape, ghost a: Shape,
        ghost b: Shape, ghost u: Shape)
      requires Mirror() && RootColor(a) == Black && RootColor(b) == Black
      requires At(cells, root, up, Tree.Node(Black, Tree.Node(Red, l, parent, Tree.Node(Red, a, node, b)), g, u))
      modifies this`root, this`cells, cells.Keys`left, cells.Keys`right, cells.Keys`parent, cells.Keys`color
      ensures Mirror() && cells.Keys == old(cells.Keys)
      ensures At(cells, root, up, Tree.Node(Black, Tree.Node(Red, l, parent, a), node, Tree.Node(Red, b, g, u)))
    {
      hide At;
      InnerLeftReady(cells, root, up, l, parent, a, node, b, g, u);
      InsertCase2Left(node, parent);
      InsertCase3Left(g, node, node.right, up);
      InnerLeftDone(old(cells), cells, old(root), up, l, parent, a, node, b, g, u);
    }

    method InsertInnerRight(node: Node, parent: Node, g: Node, ghost up: Trail, ghost u: Shape, ghost a: Shape,
        ghost b: Shape, ghost r: Shape)
      requires Mirror() && RootColor(a) == Black && RootColor(b) == Black
      requires At(cells, root, up, Tree.Node(Black, u, g, Tree.Node(Red, Tree.Node(Red, a, node, b), parent, r)))
      modifies this`root, this`cells, cells.Keys`left, cells.Keys`right, cells.Keys`parent, cells.Keys`color
      ensures Mirror() && cells.Keys == old(cells.Keys)
      ensures At(cells, root, up, Tree.Node(Black, Tree.Node(Red, u, g, a), node, Tree.Node(Red, b, parent, r)))
    {
      hide At;
      InnerRightReady(cells, root, up, u, g, a, node, b, parent, r);
      InsertCase2Right(node, parent);
      InsertCase3Right(g, node, node.left, up);
      InnerRightDone(old(cells), cells, old(root), up, u, g, a, node, b, parent, r);
    }

    /** Case 3 alone. */
    method InsertOuterLeft(parent: Node, g: Node, tmp: Node?, ghost up: Trail, ghost t: Shape, ghost b: Shape,
        ghost u: Shape)
      requires Mirror() && RootColor(b) == Black && tmp == Top(b)
      requires At(cells, root, up, Tree.Node(Black, Tree.Node(Red, t, parent, b), g, u))
      modifies this`root, this`cells, cells.Keys`left, cells.Keys`right, cells.Keys`parent, cells.Keys`color
      ensures Mirror() && cells.Keys == old(cells.Keys)
      ensures At(cells, root, up, Tree.Node(Black, t, parent, Tree.Node(Red, b, g, u)))
    {
      ghost var m, root0 := cells, root;
      ReadyRight(m, root, up, Black, Red, t, parent, b, g, u);
      InsertCase3Left(g, parent, tmp, up);
      RotateRight(m, cells, root0, up, Black, Red, t, parent, b, g, u, Black, Red);
    }

    method InsertOuterRight(parent: Node, g: Node, tmp: Node?, ghost up: Trail, ghost u: Shape, ghost b: Shape,
        ghost t: Shape)
      requires Mirror() && RootColor(b) == Black && tmp == Top(b)
      requires At(cells, root, up, Tree.Node(Black, u, g, Tree.Node(Red, b, parent, t)))
      modifies this`root, this`cells, cells.Keys`left, cells.Keys`right, cells.Keys`parent, cells.Keys`color
      ensures Mirror() && cells.Keys == old(cells.Keys)
      ensures At(cells, root, up, Tree.Node(Black, Tree.Node(Red, u, g, b), parent, t))
    {
      ghost var m, root0 := cells, root;
      ReadyLeft(m, root, up, Black, Red, u, g, b, parent, t);
      InsertCase3Right(g, parent, tmp, up);
      RotateLeft(m, cells, root0, up, Black, Red, u, g, b, parent, t, Red, Black);
    }

    /** Parent is red, a left child, and the uncle is black. */
    method InsertRotateLeft(node: Node, parent: Node, g: Node, ghost p: Trail, ghost up: Trail, ghost u: Shape,
        ghost t: Shape)
      returns (ghost t': Shape)
      requires Mirror() && At(cells, root, p, t) && RedBelow(p, t) && node == t.item
      requires !p.AtRoot? && p.color == Red && p.item == parent && p.up == InLeft(up, Black, g, u) &&
        RootColor(u) == Black
      modifies this`root, this`cells, cells.Keys`left, cells.Keys`right, cells.Keys`parent, cells.Keys`color
      ensures Mirror() && cells.Keys == old(cells.Keys) && At(cells, root, up, t')
      ensures Settled(up, t') && InOrder(t') == InOrder(Tree.Node(Black, Lift(p, t), g, u))
    {
      LiftTwiceLeft(cells, root, p, up, g, u, t);
      var tmp := parent.right;
      if node == tmp {
        SettleInnerLeft(up, p.left, parent, t.left, node, t.right, g, u);
        InsertInnerLeft(node, parent, g, up, p.left, t.left, t.right, u);
        return Tree.Node(Black, Tree.Node(Red, p.left, parent, t.left), node, Tree.Node(Red, t.right, g, u));
      }
      SettleOuterLeft(up, t, parent, p.right, g, u);
      InsertOuterLeft(parent, g, tmp, up, t, p.right, u);
      return Tree.Node(Black, t, parent, Tree.Node(Red, p.right, g, u));
    }

    method InsertRotateRight(node: Node, parent: Node, g: Node, ghost p: Trail, ghost up: Trail, ghost u: Shape,
        ghost t: Shape)
      returns (ghost t': Shape)
      requires Mirror() && At(cells, root, p, t) && RedBelow(p, t) && node == t.item
      requires !p.AtRoot? && p.color == Red && p.item == parent && p.up == InRight(up, Black, u, g) &&
        RootColor(u) == Black
      modifies this`root, this`cells, cells.Keys`left, cells.Keys`right, cells.Keys`parent, cells.Keys`color
      ensures Mirror() && cells.Keys == old(cells.Keys) && At(cells, root, up, t')
      ensures Settled(up, t') && InOrder(t') == InOrder(Tree.Node(Black, u, g, Lift(p, t)))
    {
      LiftTwiceRight(cells, root, p, up, g, u, t);
      var tmp := parent.left;
      if node == tmp {
        SettleInnerRight(up, u, g, t.left, node, t.right, parent, p.right);
        InsertInnerRight(node, parent, g, up, u, t.left, t.right, p.right);
        return Tree.Node(Black, Tree.Node(Red, u, g, t.left), node, Tree.Node(Red, t.right, parent, p.right));
      }
      SettleOuterRight(up, u, g, p.left, parent, t);
      InsertOuterRight(parent, g, tmp, up, u, p.left, t);
      return Tree.Node(Black, Tree.Node(Red, u, g, p.left), parent, t);
    }

    /** One turn of the loop, parent being red and a left child. Either the tree is settled,
        or the trouble has moved to the grandparent. */
    method InsertTurnLeft(node: Node, parent: Node, g: Node, tmp: Node?, ghost p: Trail, ghost up: Trail,
        ghost u: Shape, ghost t: Shape)
      returns (done: bool, ghost t': Shape)
      requires Mirror() && At(cells, root, p, t) && RedBelow(p, t) && node == t.item
      requires !p.AtRoot? && p.color == Red && p.item == parent && p.up == InLeft(up, Black, g, u) && tmp == g.right
      modifies this`root, this`cells, cells.Keys`left, cells.Keys`right, cells.Keys`parent, cells.Keys`color
      ensures Mirror() && cells.Keys == old(cells.Keys) && At(cells, root, up, t')
      ensures if done then Settled(up, t') else RedBelow(up, t') && t'.item == g
      ensures Items(up, t') == Items(p, t)
    {
      LiftTwiceLeft(cells, root, p, up, g, u, t);
      if tmp != null && tmp.color == Red {
        ghost var q := Lift(p, t);
        FlipLeft(p, t, up, g, u);
        InsertCase1(tmp, parent, g, up, q, u);
        return false, Tree.Node(Red, q.(color := Black), g, u.(color := Black));
      }
      t' := InsertRotateLeft(node, parent, g, p, up, u, t);
      return true, t';
    }

    method InsertTurnRight(node: Node, parent: Node, g: Node, ghost p: Trail, ghost up: Trail, ghost u: Shape,
        ghost t: Shape)
      returns (done: bool, ghost t': Shape)
      requires Mirror() && At(cells, root, p, t) && RedBelow(p, t) && node == t.item
      requires !p.AtRoot? && p.color == Red && p.item == parent && p.up == InRight(up, Black, u, g)
      modifies this`root, this`cells, cells.Keys`left, cells.Keys`right, cells.Keys`parent, cells.Keys`color
      ensures Mirror() && cells.Keys == old(cells.Keys) && At(cells, root, up, t')
      ensures if done then Settled(up, t') else RedBelow(up, t') && t'.item == g
      ensures Items(up, t') == Items(p, t)
    {
      LiftTwiceRight(cells, root, p, up, g, u, t);
      var tmp := g.left;
      if tmp != null && tmp.color == Red {
        ghost var q := Lift(p, t);
        FlipRight(p, t, up, u, g);
        InsertCase1(tmp, parent, g, up, u, q);
        return false, Tree.Node(Red, u.(color := Black), g, q.(color := Black));
      }
      t' := InsertRotateRight(node, parent, g, p, up, u, t);
      return true, t';
    }

    /** One turn of the loop, parent being red. */
    method InsertTurn(node: Node, parent: Node, ghost p: Trail, ghost t: Shape)
      returns (done: bool, g: Node, ghost t': Shape)
      requires Mirror() && At(cells, root, p, t) && RedBelow(p, t) && node == t.item
      requires !p.AtRoot? && p.color == Red && parent == p.item
      modifies this`root, this`cells, cells.Keys`left, cells.Keys`right, cells.Keys`parent, cells.Keys`color
      ensures Mirror() && cells.Keys == old(cells.Keys) && !p.up.AtRoot? && At(cells, root, p.up.up, t')
      ensures if done then Settled(p.up.up, t') else RedBelow(p.up.up, t') && t'.Node? && t'.item == g
      ensures Items(p.up.up, t') == Items(p, t)
    {
      assert Fits(p.up, BlackHeight(t), Red);
      GrandparentSide(cells, root, p, t);
      g := parent.parent;
      var tmp := g.right;
      if parent != tmp {
        done, t' := InsertTurnLeft(node, parent, g, tmp, p, p.up.up, p.up.right, t);
      } else {
        done, t' := InsertTurnRight(node, parent, g, p, p.up.up, p.up.left, t);
      }
    }

    /** The trouble has reached the root. */
    method BlackenRoot(node: Node, ghost t: Shape) returns (ghost t': Shape)
      requires Mirror() && At(cells, root, AtRoot, t) && RedBelow(AtRoot, t) && node == t.item
      modifies this`cells, cells.Keys`parent, cells.Keys`color
      ensures Mirror() && cells.Keys == old(cells.Keys)
      ensures At(cells, root, AtRoot, t') && Settled(AtRoot, t') && Items(AtRoot, t') == Items(AtRoot, t)
    {
      RedBelowStops(AtRoot, t);
      Repaint(cells, root, AtRoot, t, Black);
      SetParentColor(node, null, Black);
      t' := t.(color := Black);
    }

    /** The loop of `hev_rbtree_insert_color`: repairs the tree after `n` was linked red at a leaf slot. */
    method InsertRepair(n: Node, ghost p0: Trail) returns (ghost whole: Shape)
      requires Mirror() && At(cells, root, p0, Tree.Node(Red, Leaf, n, Leaf))
      requires RedBelow(p0, Tree.Node(Red, Leaf, n, Leaf))
      modifies this`root, this`cells, cells.Keys`left, cells.Keys`right, cells.Keys`parent, cells.Keys`color
      ensures Mirror() && cells.Keys == old(cells.Keys)
      ensures At(cells, root, AtRoot, whole) && RedBlack(whole)
      ensures InOrder(whole) == Items(p0, Tree.Node(Red, Leaf, n, Leaf))
    {
      var node, parent := n, n.parent;
      ghost var p, t: Shape := p0, Tree.Node(Red, Leaf, n, Leaf);
      ghost var items := Items(p, t);
      Look(cells, root, p, t);
      while true
        invariant Mirror() && cells.Keys == old(cells.Keys)
        invariant At(cells, root, p, t) && RedBelow(p, t) && t.Node? && Items(p, t) == items
        invariant node == t.item && parent == Above(p)
        decreases p
      {
        RedBelowStops(p, t);
        Look(cells, root, p, t);
        if parent == null {
          t := BlackenRoot(node, t);
          break;
        }
        if parent.color == Black {
          break;
        }
        var done, g;
        ghost var t';
        done, g, t' := InsertTurn(node, parent, p, t);
        p, t := p.up.up, t';
        if done {
          break;
        }
        Look(cells, root, p, t);
        node := g;
        parent := node.parent;
      }
      Whole(cells, root, p, t);
      whole := Plug(p, t);
    }

    // -------------------------------------------------------------- erasure repair

    /** Case 1: left rotate at parent; the hole gets a black sibling, which is returned. */
    method EraseCase1Left(parent: Node, sibling: Node, ghost up: Trail) returns (tmp: Node?)
      requires Mirror() && Ready(cells, up, parent, sibling.left, sibling, parent)
      requires sibling.left != null && cells[sibling.left].color == Black
      modifies this`root, this`cells, cells.Keys`left, cells.Keys`right, cells.Keys`parent, cells.Keys`color
      ensures Mirror() && cells.Keys == old(cells.Keys)
      ensures root == HangRoot(old(root), up, sibling) && tmp == old(sibling.left)
      ensures RotatedLeft(old(cells), cells, up, parent, tmp, sibling, Red, old(cells)[parent].color)
    {
      ghost var m := cells;
      tmp := sibling.left;
      SetRight(parent, tmp);
      SetLeft(sibling, parent);
      SetParentColor(tmp, parent, Black);
      RotateSetParents(parent, sibling, Red, up);
      StoresRotateLeft(m, cells, up, parent, tmp, sibling, Red, Black);
    }

    method EraseCase1Right(parent: Node, sibling: Node, ghost up: Trail) returns (tmp: Node?)
      requires Mirror() && Ready(cells, up, sibling, sibling.right, parent, parent)
      requires sibling.right != null && cells[sibling.right].color == Black
      modifies this`root, this`cells, cells.Keys`left, cells.Keys`right, cells.Keys`parent, cells.Keys`color
      ensures Mirror() && cells.Keys == old(cells.Keys)
      ensures root == HangRoot(old(root), up, sibling) && tmp == old(sibling.right)
      ensures RotatedRight(old(cells), cells, up, sibling, tmp, parent, old(cells)[parent].color, Red)
    {
      ghost var m := cells;
      tmp := sibling.right;
      SetLeft(parent, tmp);
      SetRight(sibling, parent);
      SetParentColor(tmp, parent, Black);
      RotateSetParents(parent, sibling, Red, up);
      StoresRotateRight(m, cells, up, sibling, tmp, parent, Red, Black);
    }

    /** Case 3: right rotate at sibling. */
    method EraseCase3Left(parent: Node, sibling: Node, near: Node)
      requires Mirror() && parent in cells && sibling in cells && near in cells
      requires parent != sibling && parent != near && sibling != near
      requires near.right != parent && near.right != sibling && near.right != near
      requires near.right != null ==> near.right in cells
      modifies this`cells, cells.Keys`left, cells.Keys`right, cells.Keys`parent, cells.Keys`color
      ensures Mirror() && cells.Keys == old(cells.Keys)
      ensures cells == Case3LeftStores(old(cells), parent, sibling, near, old(near.right))
    {
      var tmp := near.right;
      SetLeft(sibling, tmp);
      SetRight(near, sibling);
      SetRight(parent, near);
      if tmp != null {
        SetParentColor(tmp, sibling, Black);
      }
    }

    method EraseCase3Right(parent: Node, sibling: Node, near: Node)
      requires Mirror() && parent in cells && sibling in cells && near in cells
      requires parent != sibling && parent != near && sibling != near
      requires near.left != parent && near.left != sibling && near.left != near
      requires near.left != null ==> near.left in cells
      modifies this`cells, cells.Keys`left, cells.Keys`right, cells.Keys`parent, cells.Keys`color
      ensures Mirror() && cells.Keys == old(cells.Keys)
      ensures cells == Case3RightStores(old(cells), parent, sibling, near, old(near.left))
    {
      var tmp := near.left;
      SetRight(sibling, tmp);
      SetLeft(near, sibling);
      SetLeft(parent, near);
      if tmp != null {
        SetParentColor(tmp, sibling, Black);
      }
    }

    /** Case 4, first half: the links between parent, sibling and their children. */
    method HandOverLeft(parent: Node, sibling: Node, tmp: Node?, far: Node)
      requires Mirror() && parent in cells && sibling in cells && far in cells && (tmp == null || tmp in cells)
      requires parent != sibling && far != parent && far != sibling
      modifies this`cells, cells.Keys`left, cells.Keys`right, cells.Keys`parent, cells.Keys`color
      ensures Mirror() && cells.Keys == old(cells.Keys)
      ensures cells == Case4LeftStores(old(cells), parent, tmp, sibling, far)
    {
      SetRight(parent, tmp);
      SetLeft(sibling, parent);
      SetParentColor(far, sibling, Black);
      if tmp != null {
        SetParent(tmp, parent);
      }
    }

    method HandOverRight(parent: Node, sibling: Node, tmp: Node?, far: Node)
      requires Mirror() && parent in cells && sibling in cells && far in cells && (tmp == null || tmp in cells)
      requires parent != sibling && far != parent && far != sibling
      modifies this`cells, cells.Keys`left, cells.Keys`right, cells.Keys`parent, cells.Keys`color
      ensures Mirror() && cells.Keys == old(cells.Keys)
      ensures cells == Case4RightStores(old(cells), sibling, tmp, parent, far)
    {
      SetLeft(parent, tmp);
      SetRight(sibling, parent);
      SetParentColor(far, sibling, Black);
      if tmp != null {
        SetParent(tmp, parent);
      }
    }

    /** Case 4: left rotate at parent, and the far nephew turns black. */
    method EraseCase4Left(parent: Node, sibling: Node, far: Node, ghost up: Trail)
      requires Mirror() && Ready(cells, up, parent, sibling.left, sibling, parent)
      requires far in cells && far != parent && far != sibling
      requires Only(far) !! Only(sibling.left) && Only(far) !! Only(Above(up))
      modifies this`root, this`cells, cells.Keys`left, cells.Keys`right, cells.Keys`parent, cells.Keys`color
      ensures Mirror() && cells.Keys == old(cells.Keys)
      ensures root == HangRoot(old(root), up, sibling)
      ensures RotatedLeft(Paint(old(cells), far, sibling, Black), cells, up, parent, old(sibling.left), sibling, Black,
        old(cells)[parent].color)
    {
      ghost var m := cells;
      var tmp := sibling.left;
      StoresCase4Left(m, m, up, parent, tmp, sibling, far);
      HandOverLeft(parent, sibling, tmp, far);
      RotateSetParents(parent, sibling, Black, up);
      StoresCase4Left(m, cells, up, parent, tmp, sibling, far);
    }

    method EraseCase4Right(parent: Node, sibling: Node, far: Node, ghost up: Trail)
      requires Mirror() && Ready(cells, up, sibling, sibling.right, parent, parent)
      requires far in cells && far != parent && far != sibling
      requires Only(far) !! Only(sibling.right) && Only(far) !! Only(Above(up))
      modifies this`root, this`cells, cells.Keys`left, cells.Keys`right, cells.Keys`parent, cells.Keys`color
      ensures Mirror() && cells.Keys == old(cells.Keys)
      ensures root == HangRoot(old(root), up, sibling)
      ensures RotatedRight(Paint(old(cells), far, sibling, Black), cells, up, sibling, old(sibling.right), parent,
        old(cells)[parent].color, Black)
    {
      ghost var m := cells;
      var tmp := sibling.right;
      StoresCase4Right(m, m, up, sibling, tmp, parent, far);
      HandOverRight(parent, sibling, tmp, far);
      RotateSetParents(parent, sibling, Black, up);
      StoresCase4Right(m, cells, up, sibling, tmp, parent, far);
    }

    /** Case 2 on the tree: the sibling turns red. A red parent absorbs the lack. */
    method EraseFlip(parent: Node, sibling: Node, ghost up: Trail, ghost c: Color, ghost l: Shape, ghost r: Shape,
        ghost leftShort: bool)
      returns (done: bool)
      requires Mirror() && At(cells, root, up, Tree.Node(c, l, parent, r))
      requires var s := if leftShort then r else l; s.Node? && s.item == sibling
      modifies this`cells, cells.Keys`parent, cells.Keys`color
      ensures Mirror() && cells.Keys == old(cells.Keys) && done == (c == Red)
      ensures At(cells, root, up, if leftShort then Tree.Node(Black, l, parent, r.(color := Red))
        else Tree.Node(Black, l.(color := Red), parent, r))
    {
      hide At;
      SiblingRight(cells, root, up, c, l, parent, r);
      if leftShort {
        RepaintRight(cells, root, up, c, l, parent, r, Red);
      } else {
        RepaintLeft(cells, root, up, c, l, parent, r, Red);
      }
      SetParentColor(sibling, parent, Red);
      if parent.color == Red {
        Repaint(cells, root, up, if leftShort then Tree.Node(c, l, parent, r.(color := Red))
          else Tree.Node(c, l.(color := Red), parent, r), Black);
        SetParentColor(parent, parent.parent, Black);
        return true;
      }
      return false;
    }

    /** Cases 3 and 4 in a row, the hole being parent's left child. */
    method EraseInnerLeft(parent: Node, sibling: Node, near: Node, ghost up: Trail, ghost c: Color, ghost t: Shape,
        ghost a: Shape, ghost b: Shape, ghost e: Shape)
      requires Mirror() && RootColor(b) == Black
      requires At(cells, root, up, Tree.Node(c, t, parent, Tree.Node(Black, Tree.Node(Red, a, near, b), sibling, e)))
      modifies this`root, this`cells, cells.Keys`left, cells.Keys`right, cells.Keys`parent, cells.Keys`color
      ensures Mirror() && cells.Keys == old(cells.Keys)
      ensures At(cells, root, up, Tree.Node(c, Tree.Node(Black, t, parent, a), near, Tree.Node(Black, b, sibling, e)))
    {
      hide At;
      ShortInnerLeftReady(cells, root, up, c, t, parent, a, near, b, sibling, e);
      EraseCase3Left(parent, sibling, near);
      EraseCase4Left(parent, near, sibling, up);
      ShortInnerLeftDone(old(cells), cells, old(root), up, c, t, parent, a, near, b, sibling, e);
    }

    method EraseInnerRight(parent: Node, sibling: Node, near: Node, ghost up: Trail, ghost c: Color, ghost e: Shape,
        ghost a: Shape, ghost b: Shape, ghost t: Shape)
      requires Mirror() && RootColor(a) == Black
      requires At(cells, root, up, Tree.Node(c, Tree.Node(Black, e, sibling, Tree.Node(Red, a, near, b)), parent, t))
      modifies this`root, this`cells, cells.Keys`left, cells.Keys`right, cells.Keys`parent, cells.Keys`color
      ensures Mirror() && cells.Keys == old(cells.Keys)
      ensures At(cells, root, up, Tree.Node(c, Tree.Node(Black, e, sibling, a), near, Tree.Node(Black, b, parent, t)))
    {
      ShortInnerRightReady(cells, root, up, c, e, sibling, a, near, b, parent, t);
      EraseCase3Right(parent, sibling, near);
      EraseCase4Right(parent, near, sibling, up);
      ShortInnerRightDone(old(cells), cells, old(root), up, c, e, sibling, a, near, b, parent, t);
    }

    /** Case 4 alone. */
    method EraseOuterLeft(parent: Node, sibling: Node, far: Node, ghost up: Trail, ghost c: Color, ghost t: Shape,
        ghost a: Shape, ghost b: Shape)
      requires Mirror() && At(cells, root, up, Tree.Node(c, t, parent, Tree.Node(Black, a, sibling, b)))
      requires b.Node? && far == b.item
      modifies this`root, this`cells, cells.Keys`left, cells.Keys`right, cells.Keys`parent, cells.Keys`color
      ensures Mirror() && cells.Keys == old(cells.Keys)
      ensures At(cells, root, up, Tree.Node(c, Tree.Node(Black, t, parent, a), sibling, b.(color := Black)))
    {
      Case4LeftReady(cells, root, up, c, Black, t, parent, a, sibling, b);
      EraseCase4Left(parent, sibling, far, up);
      Case4LeftDone(old(cells), cells, old(root), up, c, t, parent, a, sibling, b);
    }

    method EraseOuterRight(parent: Node, sibling: Node, far: Node, ghost up: Trail, ghost c: Color, ghost b: Shape,
        ghost a: Shape, ghost t: Shape)
      requires Mirror() && At(cells, root, up, Tree.Node(c, Tree.Node(Black, b, sibling, a), parent, t))
      requires b.Node? && far == b.item
      modifies this`root, this`cells, cells.Keys`left, cells.Keys`right, cells.Keys`parent, cells.Keys`color
      ensures Mirror() && cells.Keys == old(cells.Keys)
      ensures At(cells, root, up, Tree.Node(c, b.(color := Black), sibling, Tree.Node(Black, a, parent, t)))
    {
      Case4RightReady(cells, root, up, c, Black, b, sibling, a, parent, t);
      EraseCase4Right(parent, sibling, far, up);
      Case4RightDone(old(cells), cells, old(root), up, c, b, sibling, a, parent, t);
    }

    /** Case 1 on the tree: afterwards the hole's sibling is black. */
    method EraseRedSiblingLeft(parent: Node, sibling: Node, ghost up: Trail, ghost t: Shape, ghost s: Shape)
      returns (tmp: Node)
      requires Mirror() && At(cells, root, up, Tree.Node(Black, t, parent, s)) && s.Node? && s.color == Red &&
        s.item == sibling
      requires s.left.Node? && s.left.color == Black
      modifies this`root, this`cells, cells.Keys`left, cells.Keys`right, cells.Keys`parent, cells.Keys`color
      ensures Mirror() && cells.Keys == old(cells.Keys)
      ensures tmp == s.left.item
      ensures At(cells, root, InLeft(up, Black, sibling, s.right), Tree.Node(Red, t, parent, s.left))
    {
      ReadyLeft(cells, root, up, Black, Red, t, parent, s.left, sibling, s.right);
      tmp := EraseCase1Left(parent, sibling, up);
      RotateLeft(old(cells), cells, old(root), up, Black, Red, t, parent, s.left, sibling, s.right, Red, Black);
      UpLeft(cells, root, up, Black, Tree.Node(Red, t, parent, s.left), sibling, s.right);
    }

    method EraseRedSiblingRight(parent: Node, sibling: Node, ghost up: Trail, ghost s: Shape, ghost t: Shape)
      returns (tmp: Node)
      requires Mirror() && At(cells, root, up, Tree.Node(Black, s, parent, t)) && s.Node? && s.color == Red &&
        s.item == sibling
      requires s.right.Node? && s.right.color == Black
      modifies this`root, this`cells, cells.Keys`left, cells.Keys`right, cells.Keys`parent, cells.Keys`color
      ensures Mirror() && cells.Keys == old(cells.Keys)
      ensures tmp == s.right.item
      ensures At(cells, root, InRight(up, Black, s.left, sibling), Tree.Node(Red, s.right, parent, t))
    {
      ReadyRight(cells, root, up, Black, Red, s.left, sibling, s.right, parent, t);
      tmp := EraseCase1Right(parent, sibling, up);
      RotateRight(old(cells), cells, old(root), up, Black, Red, s.left, sibling, s.right, parent, t, Black, Red);
      UpRight(cells, root, up, Black, s.left, sibling, Tree.Node(Red, s.right, parent, t));
    }

    /** Cases 2 to 4, the hole being parent's left child. */
    method EraseBlackSiblingLeft(parent: Node, sibling: Node, ghost up: Trail, ghost c: Color, ghost t: Shape,
        ghost s: Shape)
      returns (done: bool, ghost t': Shape)
      requires Mirror() && At(cells, root, up, Tree.Node(c, t, parent, s)) && s.Node? && s.color == Black &&
        s.item == sibling
      requires OneShort(InLeft(up, c, parent, s), t)
      modifies this`root, this`cells, cells.Keys`left, cells.Keys`right, cells.Keys`parent, cells.Keys`color
      ensures Mirror() && cells.Keys == old(cells.Keys)
      ensures At(cells, root, up, t') && InOrder(t') == InOrder(Tree.Node(c, t, parent, s))
      ensures if done then Settled(up, t') else OneShort(up, t') && t'.Node? && t'.item == parent
      ensures c == Red ==> done
    {
      SiblingRight(cells, root, up, c, t, parent, s);
      Nephews(cells, s, parent);
      var tmp1 := sibling.right;
      if tmp1 == null || tmp1.color == Black {
        var tmp2 := sibling.left;
        if tmp2 == null || tmp2.color == Black {
          ShortFlipLeft(up, c, t, parent, s);
          done := EraseFlip(parent, sibling, up, c, t, s, true);
          return done, Tree.Node(Black, t, parent, s.(color := Red));
        }
        ghost var n := s.left;
        ShortInnerLeft(up, c, t, parent, s);
        EraseInnerLeft(parent, sibling, tmp2, up, c, t, n.left, n.right, s.right);
        return true, Tree.Node(c, Tree.Node(Black, t, parent, n.left), tmp2,
          Tree.Node(Black, n.right, sibling, s.right));
      }
      ShortRotateLeft(up, c, t, parent, s);
      EraseOuterLeft(parent, sibling, tmp1, up, c, t, s.left, s.right);
      return true, Tree.Node(c, Tree.Node(Black, t, parent, s.left), sibling, s.right.(color := Black));
    }

    method EraseBlackSiblingRight(parent: Node, sibling: Node, ghost up: Trail, ghost c: Color, ghost s: Shape,
        ghost t: Shape)
      returns (done: bool, ghost t': Shape)
      requires Mirror() && At(cells, root, up, Tree.Node(c, s, parent, t)) && s.Node? && s.color == Black &&
        s.item == sibling
      requires OneShort(InRight(up, c, s, parent), t)
      modifies this`root, this`cells, cells.Keys`left, cells.Keys`right, cells.Keys`parent, cells.Keys`color
      ensures Mirror() && cells.Keys == old(cells.Keys)
      ensures At(cells, root, up, t') && InOrder(t') == InOrder(Tree.Node(c, s, parent, t))
      ensures if done then Settled(up, t') else OneShort(up, t') && t'.Node? && t'.item == parent
      ensures c == Red ==> done
    {
      hide Settled, OneShort, InOrder;
      SiblingRight(cells, root, up, c, s, parent, t);
      Nephews(cells, s, parent);
      var tmp1 := sibling.left;
      if tmp1 == null || tmp1.color == Black {
        var tmp2 := sibling.right;
        if tmp2 == null || tmp2.color == Black {
          ShortFlipRight(up, c, s, parent, t);
          done := EraseFlip(parent, sibling, up, c, s, t, false);
          return done, Tree.Node(Black, s.(color := Red), parent, t);
        }
        ghost var n := s.right;
        ShortInnerRight(up, c, s, parent, t);
        EraseInnerRight(parent, sibling, tmp2, up, c, s.left, n.left, n.right, t);
        return true, Tree.Node(c, Tree.Node(Black, s.left, sibling, n.left), tmp2,
          Tree.Node(Black, n.right, parent, t));
      }
      ShortRotateRight(up, c, s, parent, t);
      EraseOuterRight(parent, sibling, tmp1, up, c, s.left, s.right, t);
      return true, Tree.Node(c, s.left.(color := Black), sibling, Tree.Node(Black, s.right, parent, t));
    }

    /** Case 1, and what follows it; with a red parent the loop always ends. */
    method EraseThroughRedLeft(parent: Node, sibling: Node, ghost up: Trail, ghost t: Shape, ghost s: Shape)
      returns (ghost p': Trail, ghost t': Shape)
      requires Mirror() && At(cells, root, up, Tree.Node(Black, t, parent, s)) &&
        OneShort(InLeft(up, Black, parent, s), t)
      requires s.Node? && s.color == Red && s.item == sibling
      modifies this`root, this`cells, cells.Keys`left, cells.Keys`right, cells.Keys`parent, cells.Keys`color
      ensures Mirror() && cells.Keys == old(cells.Keys)
      ensures At(cells, root, p', t') && Items(p', t') == Items(InLeft(up, Black, parent, s), t) && Settled(p', t')
    {
      ShortRedSiblingLeft(up, Black, t, parent, s);
      RedSiblingItemsLeft(up, t, parent, s);
      var tmp := EraseRedSiblingLeft(parent, sibling, up, t, s);
      p' := InLeft(up, Black, s.item, s.right);
      var done;
      done, t' := EraseBlackSiblingLeft(parent, tmp, p', Red, t, s.left);
    }

    method EraseThroughRedRight(parent: Node, sibling: Node, ghost up: Trail, ghost s: Shape, ghost t: Shape)
      returns (ghost p': Trail, ghost t': Shape)
      requires Mirror() && At(cells, root, up, Tree.Node(Black, s, parent, t)) &&
        OneShort(InRight(up, Black, s, parent), t)
      requires s.Node? && s.color == Red && s.item == sibling
      modifies this`root, this`cells, cells.Keys`left, cells.Keys`right, cells.Keys`parent, cells.Keys`color
      ensures Mirror() && cells.Keys == old(cells.Keys)
      ensures At(cells, root, p', t') && Items(p', t') == Items(InRight(up, Black, s, parent), t) && Settled(p', t')
    {
      ShortRedSiblingRight(up, Black, s, parent, t);
      RedSiblingItemsRight(up, s, parent, t);
      var tmp := EraseRedSiblingRight(parent, sibling, up, s, t);
      p' := InRight(up, Black, s.left, s.item);
      var done;
      done, t' := EraseBlackSiblingRight(parent, tmp, p', Red, s.right, t);
    }

    /** One turn of the loop, the hole being parent's left child. Either the tree is
        settled, or parent itself is now the top of a short subtree. */
    method EraseTurnLeft(parent: Node, sibling: Node, ghost up: Trail, ghost c: Color, ghost t: Shape, ghost s: Shape)
      returns (done: bool, ghost p': Trail, ghost t': Shape)
      requires Mirror() && At(cells, root, InLeft(up, c, parent, s), t) && OneShort(InLeft(up, c, parent, s), t)
      requires s.Node? && s.item == sibling
      modifies this`root, this`cells, cells.Keys`left, cells.Keys`right, cells.Keys`parent, cells.Keys`color
      ensures Mirror() && cells.Keys == old(cells.Keys)
      ensures At(cells, root, p', t') && Items(p', t') == Items(InLeft(up, c, parent, s), t)
      ensures if done then Settled(p', t') else OneShort(p', t') && t'.Node? && t'.item == parent && p' == up
    {
      ShortRedSiblingLeft(up, c, t, parent, s);
      UpLeft(cells, root, up, c, t, parent, s);
      SiblingRight(cells, root, up, c, t, parent, s);
      if sibling.color == Red {
        p', t' := EraseThroughRedLeft(parent, sibling, up, t, s);
        done := true;
      } else {
        p' := up;
        done, t' := EraseBlackSiblingLeft(parent, sibling, p', c, t, s);
      }
    }

    method EraseTurnRight(parent: Node, sibling: Node, ghost up: Trail, ghost c: Color, ghost s: Shape, ghost t: Shape)
      returns (done: bool, ghost p': Trail, ghost t': Shape)
      requires Mirror() && At(cells, root, InRight(up, c, s, parent), t) && OneShort(InRight(up, c, s, parent), t)
      requires s.Node? && s.item == sibling
      modifies this`root, this`cells, cells.Keys`left, cells.Keys`right, cells.Keys`parent, cells.Keys`color
      ensures Mirror() && cells.Keys == old(cells.Keys)
      ensures At(cells, root, p', t') && Items(p', t') == Items(InRight(up, c, s, parent), t)
      ensures if done then Settled(p', t') else OneShort(p', t') && t'.Node? && t'.item == parent && p' == up
    {
      ShortRedSiblingRight(up, c, s, parent, t);
      UpRight(cells, root, up, c, s, parent, t);
      SiblingRight(cells, root, up, c, s, parent, t);
      if sibling.color == Red {
        p', t' := EraseThroughRedRight(parent, sibling, up, s, t);
        done := true;
      } else {
        p' := up;
        done, t' := EraseBlackSiblingRight(parent, sibling, p', c, s, t);
      }
    }

    /** `_hev_rbtree_erase_color`: the hole below `parent0` is one black node short. */
    method EraseColor(parent0: Node, ghost p0: Trail, ghost t0: Shape) returns (ghost whole: Shape)
      requires Mirror() && At(cells, root, p0, t0) && OneShort(p0, t0) && t0.Leaf?
      requires parent0 == Above(p0)
      modifies this`root, this`cells, cells.Keys`left, cells.Keys`right, cells.Keys`parent, cells.Keys`color
      ensures Mirror() && cells.Keys == old(cells.Keys)
      ensures At(cells, root, AtRoot, whole) && RedBlack(whole) && InOrder(whole) == Items(p0, t0)
    {
      var node: Node? := null;
      var parent: Node := parent0;
      ghost var p, t := p0, t0;
      while true
        invariant Mirror() && cells.Keys == old(cells.Keys)
        invariant At(cells, root, p, t) && OneShort(p, t) && Items(p, t) == Items(p0, t0)
        invariant node == Top(t) && parent == Above(p)
        decreases p
      {
        ShortSibling(cells, root, p, t);
        var sibling := parent.right;
        var done;
        ghost var p', t';
        if node != sibling {
          done, p', t' := EraseTurnLeft(parent, sibling, p.up, p.color, t, p.right);
        } else {
          sibling := parent.left;
          done, p', t' := EraseTurnRight(parent, sibling, p.up, p.color, p.left, t);
        }
        p, t := p', t';
        if done {
          break;
        }
        Look(cells, root, p, t);
        node := parent;
        if node.parent == null {
          OneShortAtRoot(t);
          break;
        }
        parent := node.parent;
      }
      Whole(cells, root, p, t);
      whole := Plug(p, t);
    }

    // -------------------------------------------------------------- taking a node out

    /** The leftmost node of the right subtree, and the node above it. */
    method FindSuccessor(child: Node, ghost n: Node, ghost r: Shape)
      returns (successor: Node, parent: Node, ghost q: Trail, ghost s: Shape)
      requires Mirror() && Linked(cells, r, n) && r.Node? && r.item == child
      ensures s.Node? && s.item == successor && s.left.Leaf? && Linked(cells, s, if q.AtRoot? then n else q.item)
      ensures r == Plug(q, s) && AllLeft(q) && parent == if q.AtRoot? then successor else q.item
    {
      successor, parent := child, child;
      q, s := AtRoot, r;
      var tmp := child.left;
      while tmp != null
        invariant s.Node? && s.item == successor && Linked(cells, s, if q.AtRoot? then n else q.item)
        invariant tmp == Top(s.left) && r == Plug(q, s) && AllLeft(q)
        invariant parent == if q.AtRoot? then successor else q.item
        decreases s
      {
        parent := successor;
        q, s := InLeft(q, s.color, s.item, s.right), s.left;
        successor := tmp;
        tmp := successor.left;
      }
    }

    /** Case 3: the successor leaves its place below `parent` and adopts the right child. */
    method Leave(successor: Node, parent: Node, child: Node, child2: Node?)
      requires Mirror() && successor in cells && parent in cells && child in cells && successor != parent &&
        child != successor
      modifies this`cells, cells.Keys`left, cells.Keys`right, cells.Keys`parent, cells.Keys`color
      ensures Mirror() && cells.Keys == old(cells.Keys)
      ensures cells == LeaveStores(old(cells), successor, parent, child, child2)
    {
      SetLeft(parent, child2);
      SetRight(successor, child);
      SetParent(child, successor);
    }

    /** The successor adopts the left child and hangs where the node hung. */
    method Enter(node: Node, successor: Node, left: Node, ghost p: Trail)
      requires Mirror() && successor in cells && left in cells && node in cells && left != node && successor != node
      requires left != successor && Above(p) != left && Above(p) != successor
      requires cells[node].parent == Above(p) && Hangs(cells, p, node)
      modifies this`root, this`cells, cells.Keys`left, cells.Keys`right, cells.Keys`parent, cells.Keys`color
      ensures Mirror() && cells.Keys == old(cells.Keys)
      ensures (p.AtRoot? || p.item in old(cells)) && cells == EnterStores(old(cells), p, successor, left)
      ensures root == HangRoot(old(root), p, successor)
    {
      SetLeft(successor, left);
      SetParent(left, successor);
      var tmp := node.parent;
      ChangeChild(node, successor, tmp, p);
    }

    /** The stores of cases 2 and 3, the successor being known. */
    method MoveSuccessor(node: Node, successor: Node, parent: Node, child: Node, left: Node, ghost p: Trail)
      returns (rebalance: Node?)
      requires Mirror() && Cast(cells, p, node, left, child, successor, parent, successor.right)
      modifies this`root, this`cells, cells.Keys`left, cells.Keys`right, cells.Keys`parent, cells.Keys`color
      ensures Mirror() && cells.Keys == old(cells.Keys)
      ensures cells == TwoChildStores(old(cells), p, node, left, child, successor, parent, old(successor.right))
      ensures root == HangRoot(old(root), p, successor)
      ensures rebalance == if old(successor.right) == null && old(successor.color) == Black then parent else null
    {
      hide At;
      var child2 := successor.right;
      CastEnter(cells, p, node, left, child, successor, parent, child2);
      if successor != parent {
        Leave(successor, parent, child, child2);
      }
      Enter(node, successor, left, p);
      rebalance := Recolor(node, successor, parent, child2);
    }

    /** The successor takes the node's parent and colour, its right child turns black. */
    method Recolor(node: Node, successor: Node, parent: Node, child2: Node?) returns (rebalance: Node?)
      requires Mirror() && node in cells && successor in cells && node != child2 && successor != child2
      requires child2 != null ==> child2 in cells
      modifies this`cells, cells.Keys`parent, cells.Keys`color
      ensures Mirror() && cells.Keys == old(cells.Keys)
      ensures var m := PaintIf(old(cells), child2, parent, Black);
        cells == m[successor := m[successor].(parent := old(cells)[node].parent, color := old(cells)[node].color)]
      ensures rebalance == if child2 == null && old(successor.color) == Black then parent else null
    {
      if child2 != null {
        SetParentColor(child2, parent, Black);
        rebalance := null;
      } else {
        rebalance := if successor.color == Black then parent else null;
      }
      SetParentColor(successor, node.parent, node.color);
    }

    /** `_hev_rbtree_erase`, cases 2 and 3: the successor replaces the node. */
    method TakeOutTwo(node: Node, child: Node, left: Node, ghost p: Trail, ghost c: Color, ghost l: Shape,
        ghost r: Shape)
      returns (rebalance: Node?, ghost p': Trail, ghost t': Shape)
      requires Mirror() && At(cells, root, p, Tree.Node(c, l, node, r)) && Settled(p, Tree.Node(c, l, node, r))
      requires child == Top(r) && left == Top(l)
      modifies this`root, this`cells, cells.Keys`left, cells.Keys`right, cells.Keys`parent, cells.Keys`color
      ensures Mirror() && cells.Keys == old(cells.Keys)
      ensures At(cells, root, p', t') && node !in Span(p', t') &&
        Span(p', t') == Span(p, Tree.Node(c, l, node, r)) - {node}
      ensures Items(p', t') == Before(p) + InOrder(l) + InOrder(r) + After(p)
      ensures if rebalance == null then Settled(p', t') else OneShort(p', t') && t'.Leaf? && rebalance == Above(p')
    {
      hide Good, OneShort;
      ghost var m, root0 := cells, root;
      var successor, parent;
      ghost var q, s;
      successor, parent, q, s := FindSuccessor(child, node, r);
      ghost var cs, c2 := s.color, s.right;
      FoundCast(m, root, p, c, l, node, r, q, cs, successor, c2);
      rebalance := MoveSuccessor(node, successor, parent, child, left, p);
      p', t' := Graft(q, InRight(p, c, l, successor)), Recolored(c2, Black);
      TwoChildDone(m, root0, p, c, l, node, r, q, cs, successor, c2);
      TwoChildRules(p, c, l, node, q, cs, successor, c2);
      TwoChildOrder(p, c, l, node, q, cs, successor, c2);
    }

    /** `_hev_rbtree_erase`, case 1: at most one child. */
    method TakeOutOne(node: Node, child: Node?, ghost p: Trail)
      requires Mirror() && node in cells && (child != null ==> child in cells && child != node && child != Above(p))
      requires cells[node].parent == Above(p) && Hangs(cells, p, node) && Above(p) != node
      modifies this`root, this`cells, cells.Keys`left, cells.Keys`right, cells.Keys`parent, cells.Keys`color
      ensures Mirror() && cells.Keys == old(cells.Keys)
      ensures (p.AtRoot? || p.item in old(cells)) && cells == OneChildStores(old(cells), p, node, child)
      ensures root == HangRoot(old(root), p, child)
    {
      var parent, color := node.parent, node.color;
      ChangeChild(node, child, parent, p);
      if child != null {
        SetParentColor(child, parent, color);
      }
    }

    /** `_hev_rbtree_erase`: takes the node out and says below which node, if any, the tree
        is now one black node short. */
    method TakeOutNode(node: Node, ghost p: Trail, ghost c: Color, ghost l: Shape, ghost r: Shape)
      returns (rebalance: Node?, ghost p': Trail, ghost t': Shape)
      requires Mirror() && At(cells, root, p, Tree.Node(c, l, node, r)) && Settled(p, Tree.Node(c, l, node, r))
      modifies this`root, this`cells, cells.Keys`left, cells.Keys`right, cells.Keys`parent, cells.Keys`color
      ensures Mirror() && cells.Keys == old(cells.Keys)
      ensures At(cells, root, p', t') && node !in Span(p', t') &&
        Span(p', t') == Span(p, Tree.Node(c, l, node, r)) - {node}
      ensures Items(p', t') == Before(p) + InOrder(l) + InOrder(r) + After(p)
      ensures if rebalance == null then Settled(p', t') else OneShort(p', t') && t'.Leaf? && rebalance == Above(p')
    {
      OneChildReady(cells, root, p, c, l, node, r, r);
      var child := node.right;
      var tmp := node.left;
      if tmp == null {
        TakeOut(p, c, node, r);
        OneChildDone(cells, root, p, c, l, node, r, r);
        OneChildOrder(p, c, l, node, r, r, Black);
        var black := node.color == Black;
        var parent := node.parent;
        TakeOutOne(node, child, p);
        rebalance := if child == null && black then parent else null;
        p', t' := p, Recolored(r, Black);
      } else if child == null {
        OneChildReady(cells, root, p, c, l, node, r, l);
        TakeOut(p, c, node, l);
        OneChildDone(cells, root, p, c, l, node, r, l);
        OneChildOrder(p, c, l, node, r, l, Black);
        TakeOutOne(node, tmp, p);
        rebalance := null;
        p', t' := p, Recolored(l, Black);
      } else {
        rebalance, p', t' := TakeOutTwo(node, child, tmp, p, c, l, r);
      }
    }

    /** `hev_rbtree_erase` on a node whose place in the tree is known. */
    method EraseAt(node: Node, ghost p: Trail, ghost t: Shape) returns (ghost whole: Shape)
      requires Mirror() && At(cells, root, p, t) && Settled(p, t) && t.Node? && t.item == node
      modifies this`root, this`cells, cells.Keys`left, cells.Keys`right, cells.Keys`parent, cells.Keys`color
      ensures Mirror() && cells.Keys == old(cells.Keys)
      ensures At(cells, root, AtRoot, whole) && RedBlack(whole)
      ensures Nodes(whole) == Span(p, t) - {node}
      ensures InOrder(whole) == Before(p) + InOrder(t.left) + InOrder(t.right) + After(p)
    {
      var rebalance;
      ghost var p', t';
      rebalance, p', t' := TakeOutNode(node, p, t.color, t.left, t.right);
      if rebalance != null {
        whole := EraseColor(rebalance, p', t');
        SameItemsSameNodes(whole, p', t');
      } else {
        Whole(cells, root, p', t');
        whole := Plug(p', t');
      }
    }

    // -------------------------------------------------------------- the tree as a whole

    /** The fields of the nodes form the red-black tree `shape`, and nothing else. */
    ghost predicate Valid()
      reads this, cells.Keys`parent, cells.Keys`color, cells.Keys`left, cells.Keys`right
    {
      Mirror() && At(cells, root, AtRoot, shape) && RedBlack(shape) && cells.Keys == Nodes(shape)
    }

    /** `n` was linked at the hole of `p` and awaits `InsertColor`. */
    ghost predicate Pending(n: Node, p: Trail)
      reads this, cells.Keys`parent, cells.Keys`color, cells.Keys`left, cells.Keys`right
    {
      && Mirror() && At(cells, root, p, Tree.Node(Red, Leaf, n, Leaf))
      && RedBelow(p, Tree.Node(Red, Leaf, n, Leaf)) && cells.Keys == TrailNodes(p) + {n}
    }

    constructor ()
      ensures Valid() && InOrder(shape) == []
    {
      root := null;
      cells := map[];
      shape := Leaf;
    }

    /** `hev_rbtree_node_link` */
    method Link(n: Node, parent: Node?, slot: Slot, ghost p: Trail)
      requires Valid() && n !in cells && At(cells, root, p, Leaf) && Plug(p, Leaf) == shape
      requires parent == Above(p) && slot == SlotOf(p)
      modifies this`root, this`cells, cells.Keys`left, cells.Keys`right, n`parent, n`color, n`left, n`right
      ensures Pending(n, p) && shape == old(shape)
    {
      hide At, Plug;
      Rise(cells, root, p, Leaf);
      LeafSlot(p, n);
      LinkDone(cells, HangAt(cells[n := Cell(parent, Red, null, null)], p, n), root, p, n);
      ItemsOfNew(p, n);
      SetFresh(n, parent);
      match slot {
        case TopSlot => root := n;
        case LeftSlot(v) => SetLeft(v, n);
        case RightSlot(v) => SetRight(v, n);
      }
    }

    method SetFresh(n: Node, parent: Node?)
      requires Mirror() && n !in cells
      modifies this`cells, n`parent, n`color, n`left, n`right
      ensures Mirror() && cells == old(cells)[n := Cell(parent, Red, null, null)]
    {
      n.parent, n.color := parent, Red;
      n.left, n.right := null, null;
      cells := cells[n := Cell(parent, Red, null, null)];
    }

    /** `hev_rbtree_insert_color`: the tree is red-black again, and in the same order. */
    method InsertColor(n: Node, ghost p: Trail)
      requires Pending(n, p)
      modifies this, cells.Keys`left, cells.Keys`right, cells.Keys`parent, cells.Keys`color
      ensures Valid() && cells.Keys == old(cells.Keys)
      ensures InOrder(shape) == Before(p) + [n] + After(p)
    {
      ghost var w := InsertRepair(n, p);
      SameItemsSameNodes(w, p, Tree.Node(Red, Leaf, n, Leaf));
      ItemsOfNew(p, n);
      Reshape(w);
    }

    /** `hev_rbtree_erase`: exactly `node` leaves the tree, which stays red-black. */
    method Erase(node: Node)
      requires Valid() && node in Nodes(shape)
      modifies this, cells.Keys`left, cells.Keys`right, cells.Keys`parent, cells.Keys`color
      ensures Valid() && Nodes(shape) == old(Nodes(shape)) - {node}
      ensures InOrder(shape) == Without(old(InOrder(shape)), node)
    {
      ghost var p, t := Stand(cells, root, shape, node);
      ghost var w := EraseAt(node, p, t);
      StandsNoMore(old(cells), old(root), p, t, shape, w);
      Forget(node, w);
    }

    ghost method Reshape(w: Shape)
      requires Mirror() && At(cells, root, AtRoot, w) && RedBlack(w) && Nodes(w) == cells.Keys
      modifies this`shape
      ensures Valid() && shape == w
    {
      shape := w;
    }

    /** Drops the erased node from the ghost snapshot. */
    ghost method Forget(node: Node, w: Shape)
      requires Mirror() && At(cells, root, AtRoot, w) && RedBlack(w) && Nodes(w) == cells.Keys - {node}
      modifies this`cells, this`shape
      ensures Valid() && shape == w
    {
      ghost var m := cells;
      cells := map n | n in cells && n != node :: cells[n];
      shape := w;
      KeepTree(m, cells, w, null, {node});
    }

    // -------------------------------------------------------------- walking in order

    /** `hev_rbtree_first` */
    method First() returns (r: Node?)
      requires Valid()
      ensures r == if InOrder(shape) == [] then null else InOrder(shape)[0]
    {
      r := root;
      if r != null {
        r := Leftmost(r, null, shape);
      }
    }

    /** `hev_rbtree_last` */
    method Last() returns (r: Node?)
      requires Valid()
      ensures r == if InOrder(shape) == [] then null else InOrder(shape)[|InOrder(shape)| - 1]
    {
      r := root;
      if r != null {
        r := Rightmost(r, null, shape);
      }
    }

    /** `while (n->left) n = n->left;` */
    method Leftmost(n0: Node, ghost parent: Node?, ghost t0: Shape) returns (n: Node)
      requires Mirror() && Linked(cells, t0, parent) && t0.Node? && t0.item == n0
      ensures InOrder(t0)[0] == n
    {
      n := n0;
      ghost var p, t := parent, t0;
      while n.left != null
        invariant Linked(cells, t, p) && t.Node? && t.item == n && InOrder(t)[0] == InOrder(t0)[0]
        decreases t
      {
        p, t := n, t.left;
        n := n.left;
      }
    }

    method Rightmost(n0: Node, ghost parent: Node?, ghost t0: Shape) returns (n: Node)
      requires Mirror() && Linked(cells, t0, parent) && t0.Node? && t0.item == n0
      ensures InOrder(t0)[|InOrder(t0)| - 1] == n
    {
      n := n0;
      ghost var p, t := parent, t0;
      while n.right != null
        invariant Linked(cells, t, p) && t.Node? && t.item == n
        invariant InOrder(t)[|InOrder(t)| - 1] == InOrder(t0)[|InOrder(t0)| - 1]
        decreases t
      {
        p, t := n, t.right;
        n := n.right;
      }
    }

    /** `hev_rbtree_node_next`: the node after `node0` in order, or null. */
    method Next(node0: Node, ghost i: nat) returns (r: Node?)
      requires Valid() && (Empty(node0) || (i < |InOrder(shape)| && InOrder(shape)[i] == node0))
      ensures Empty(node0) ==> r == null
      ensures !Empty(node0) ==> r == if i + 1 < |InOrder(shape)| then InOrder(shape)[i + 1] else null
    {
      if Empty(node0) {
        return null;
      }
      ghost var p, t := StandAt(cells, root, shape, i);
      if node0.right != null {
        r := Leftmost(node0.right, node0, t.right);
        return;
      }
      var node, parent := node0, node0.parent;
      ghost var after := After(p);
      while parent != null && node == parent.right
        invariant At(cells, root, p, t) && t.Node? && t.item == node && parent == Above(p) && After(p) == after
        decreases p
      {
        AtParent(cells, root, p, t);
        p, t := p.up, Lift(p, t);
        node := parent;
        parent := node.parent;
      }
      if parent != null {
        AtParent(cells, root, p, t);
      }
      r := parent;
    }

    /** `hev_rbtree_node_prev`: the node before `node0` in order, or null. */
    method Prev(node0: Node, ghost i: nat) returns (r: Node?)
      requires Valid() && (Empty(node0) || (i < |InOrder(shape)| && InOrder(shape)[i] == node0))
      ensures Empty(node0) ==> r == null
      ensures !Empty(node0) ==> r == if 0 < i then InOrder(shape)[i - 1] else null
    {
      if Empty(node0) {
        return null;
      }
      ghost var p, t := StandAt(cells, root, shape, i);
      if node0.left != null {
        r := Rightmost(node0.left, node0, t.left);
        return;
      }
      var node, parent := node0, node0.parent;
      ghost var before := Before(p);
      while parent != null && node == parent.left
        invariant At(cells, root, p, t) && t.Node? && t.item == node && parent == Above(p) && Before(p) == before
        decreases p
      {
        AtParent(cells, root, p, t);
        p, t := p.up, Lift(p, t);
        node := parent;
        parent := node.parent;
      }
      if parent != null {
        AtParent(cells, root, p, t);
      }
      r := parent;
    }

    /** `hev_rbtree_replace`: `incoming` takes the place of `victim`. */
    method Replace(victim: Node, incoming: Node)
      requires Valid() && victim in Nodes(shape) && incoming !in cells
      modifies this, cells.Keys`left, cells.Keys`right, cells.Keys`parent, incoming`left, incoming`right,
        incoming`parent, incoming`color
      ensures Valid() && Nodes(shape) == old(Nodes(shape)) - {victim} + {incoming}
      ensures Renamed(old(InOrder(shape)), InOrder(shape), victim, incoming)
    {
      ghost var p, t := Stand(cells, root, shape, victim);
      ReplaceOrder(cells, root, p, t, incoming);
      ReplaceAt(victim, incoming, p, t);
      Forget(victim, Plug(p, t.(item := incoming)));
    }

    method ReplaceAt(victim: Node, incoming: Node, ghost p: Trail, ghost t: Shape)
      requires Mirror() && At(cells, root, p, t) && Settled(p, t) && t.Node? && t.item == victim && incoming !in cells
      requires cells.Keys == Span(p, t)
      modifies this`root, this`cells, cells.Keys`left, cells.Keys`right, cells.Keys`parent, incoming`left,
        incoming`right, incoming`parent, incoming`color
      ensures Mirror() && cells.Keys == old(cells.Keys) + {incoming}
      ensures var w := Plug(p, t.(item := incoming));
        At(cells, root, AtRoot, w) && RedBlack(w) && Nodes(w) == Nodes(Plug(p, t)) - {victim} + {incoming}
    {
      ReplaceReady(cells, root, p, t);
      ReplaceStored(cells, root, p, t, incoming);
      StoreReplace(victim, incoming, p);
      ReplaceDone(old(cells), cells, old(root), root, p, t, incoming);
    }

    method StoreReplace(victim: Node, incoming: Node, ghost p: Trail)
      requires Mirror() && victim in cells && incoming !in cells && (p.AtRoot? || p.item in cells)
      requires cells[victim].parent == Above(p) && Hangs(cells, p, victim) && Above(p) != victim
      requires victim.left != null ==> victim.left in cells && victim.left != victim && victim.left != Above(p)
      requires victim.right != null ==> victim.right in cells && victim.right != victim && victim.right != Above(p)
      requires victim.left != null ==> victim.left != victim.right
      modifies this`root, this`cells, cells.Keys`left, cells.Keys`right, cells.Keys`parent, incoming`left,
        incoming`right, incoming`parent, incoming`color
      ensures Mirror() && cells == ReplaceStores(old(cells), p, victim, incoming) &&
        root == HangRoot(old(root), p, incoming)
    {
      var parent := victim.parent;
      CopyNode(victim, incoming);
      if victim.left != null {
        SetParent(victim.left, incoming);
      }
      if victim.right != null {
        SetParent(victim.right, incoming);
      }
      ChangeChild(victim, incoming, parent, p);
    }

    /** `*new = *victim` */
    method CopyNode(victim: Node, incoming: Node)
      requires Mirror() && victim in cells && incoming !in cells
      modifies this`cells, incoming`left, incoming`right, incoming`parent, incoming`color
      ensures Mirror() && cells == old(cells)[incoming := old(cells)[victim]]
    {
      incoming.parent, incoming.color, incoming.left, incoming.right :=
        victim.parent, victim.color, victim.left, victim.right;
      cells := cells[incoming := cells[victim]];
    }
  }
}
