/**
 How a coloured tree lies in memory. A `Cells` map is a snapshot of the tree fields
 of some nodes; `At` says that a snapshot is a given tree, seen from a given hole.
 The lemmas below say what each group of stores does to the tree it stands for.
 */
module RbLayout {
  import opened ColoredTree
  import opened DnsNode

  type Shape = Tree<Node>
  type Trail = Path<Node>

  /** The tree fields of one node. */
  datatype Cell = Cell(parent: Node?, color: Color, left: Node?, right: Node?)
  type Cells = map<Node, Cell>

  ghost function Top(t: Shape): Node? {
    if t.Leaf? then null else t.item
  }

  /** The node the hole hangs from. */
  ghost function Above(p: Trail): Node? {
    match p
    case AtRoot => null
    case InLeft(_, _, v, _) => v
    case InRight(_, _, _, v) => v
  }

  ghost function Nodes(t: Shape): set<Node> {
    match t
    case Leaf => {}
    case Node(_, l, v, r) => Nodes(l) + {v} + Nodes(r)
  }

  ghost function TrailNodes(p: Trail): set<Node> {
    match p
    case AtRoot => {}
    case InLeft(up, _, v, r) => TrailNodes(up) + {v} + Nodes(r)
    case InRight(up, _, l, v) => TrailNodes(up) + {v} + Nodes(l)
  }

  ghost function Span(p: Trail, t: Shape): set<Node> {
    TrailNodes(p) + Nodes(t)
  }

  /** No node occurs twice in the shape. */
  ghost predicate Distinct(t: Shape) {
    t.Node? ==>
      && t.item !in Nodes(t.left) && t.item !in Nodes(t.right)
      && Nodes(t.left) !! Nodes(t.right)
      && Distinct(t.left) && Distinct(t.right)
  }

  ghost predicate TrailDistinct(p: Trail) {
    match p
    case AtRoot => true
    case InLeft(up, _, v, r) =>
      && TrailDistinct(up) && Distinct(r)
      && v !in TrailNodes(up) && v !in Nodes(r)
      && Nodes(r) !! TrailNodes(up)
    case InRight(up, _, l, v) =>
      && TrailDistinct(up) && Distinct(l)
      && v !in TrailNodes(up) && v !in Nodes(l)
      && Nodes(l) !! TrailNodes(up)
  }

  ghost predicate Placed(p: Trail, t: Shape) {
    TrailDistinct(p) && Distinct(t) && Nodes(t) !! TrailNodes(p)
  }

  /** The cells below and including the top of `t` are laid out as `t` says. */
  ghost predicate Linked(m: Cells, t: Shape, parent: Node?) {
    t.Node? ==>
      && t.item in m
      && m[t.item] == Cell(parent, t.color, Top(t.left), Top(t.right))
      && Linked(m, t.left, t.item)
      && Linked(m, t.right, t.item)
  }

  /** The cells outside the hole are laid out as the trail says. */
  ghost predicate Around(m: Cells, root: Node?, p: Trail, hole: Node?)
    decreases p
  {
    match p
    case AtRoot => root == hole
    case InLeft(up, c, v, r) =>
      && v in m && m[v] == Cell(Above(up), c, hole, Top(r))
      && Linked(m, r, v) && Around(m, root, up, v)
    case InRight(up, c, l, v) =>
      && v in m && m[v] == Cell(Above(up), c, Top(l), hole)
      && Linked(m, l, v) && Around(m, root, up, v)
  }

  /** The whole tree is laid out as `Plug(p, t)`, seen from the hole. */
  ghost predicate At(m: Cells, root: Node?, p: Trail, t: Shape) {
    Placed(p, t) && Around(m, root, p, Top(t)) && Linked(m, t, Above(p))
  }

  // ---------------------------------------------------------------- frames

  /** The snapshots differ at most on `ch`. */
  ghost predicate Agree(m: Cells, m': Cells, ch: set<Node>) {
    forall n :: n in m && n !in ch ==> n in m' && m'[n] == m[n]
  }

  lemma {:induction false} KeepTree(m: Cells, m': Cells, t: Shape, parent: Node?, ch: set<Node>)
    requires Linked(m, t, parent) && Agree(m, m', ch) && ch !! Nodes(t)
    ensures Linked(m', t, parent)
  {
    if t.Node? {
      KeepTree(m, m', t.left, t.item, ch);
      KeepTree(m, m', t.right, t.item, ch);
    }
  }

  lemma {:induction false} KeepTrail(m: Cells, m': Cells, root: Node?, p: Trail, hole: Node?, ch: set<Node>)
    requires Around(m, root, p, hole) && Agree(m, m', ch) && ch !! TrailNodes(p)
    ensures Around(m', root, p, hole)
    decreases p
  {
    match p
    case AtRoot =>
    case InLeft(up, c, v, r) =>
      KeepTrail(m, m', root, up, v, ch);
      KeepTree(m, m', r, v, ch);
    case InRight(up, c, l, v) =>
      KeepTrail(m, m', root, up, v, ch);
      KeepTree(m, m', l, v, ch);
  }

  ghost function Only(n: Node?): set<Node> {
    if n == null then {} else {n}
  }

  ghost function HangRoot(root: Node?, p: Trail, now: Node?): Node? {
    if p.AtRoot? then now else root
  }

  /** The cell the hole hangs from, once `now` hangs there. */
  ghost predicate Hung(m: Cells, m': Cells, p: Trail, now: Node?) {
    match p
    case AtRoot => true
    case InLeft(_, _, v, _) => v in m && v in m' && m'[v] == m[v].(left := now)
    case InRight(_, _, _, v) => v in m && v in m' && m'[v] == m[v].(right := now)
  }

  /** Everything around the hole is as before, and something else hangs in it. */
  lemma {:induction false} Refill(m: Cells, m': Cells, root: Node?, p: Trail, was: Node?, now: Node?, ch: set<Node>)
    requires Around(m, root, p, was) && TrailDistinct(p) && Hung(m, m', p, now)
    requires Agree(m, m', ch) && ch * TrailNodes(p) <= Only(Above(p))
    ensures Around(m', HangRoot(root, p, now), p, now)
  {
    match p
    case AtRoot =>
    case InLeft(up, c, v, r) =>
      KeepTrail(m, m', root, up, v, ch);
      KeepTree(m, m', r, v, ch);
    case InRight(up, c, l, v) =>
      KeepTrail(m, m', root, up, v, ch);
      KeepTree(m, m', l, v, ch);
  }

  /** A subtree is hung below a new parent. */
  lemma {:induction false} Rehang(m: Cells, m': Cells, t: Shape, was: Node?, now: Node?, ch: set<Node>)
    requires Linked(m, t, was) && Distinct(t)
    requires t.Node? ==> t.item in m' && m'[t.item] == m[t.item].(parent := now)
    requires Agree(m, m', ch) && ch * Nodes(t) <= Only(Top(t))
    ensures Linked(m', t, now)
  {
    if t.Node? {
      KeepTree(m, m', t.left, t.item, ch);
      KeepTree(m, m', t.right, t.item, ch);
    }
  }

  /** Filling the hole and looking at the tree from its root is the same heap. */
  lemma {:induction false} Rise(m: Cells, root: Node?, p: Trail, t: Shape)
    ensures At(m, root, p, t) <==> At(m, root, AtRoot, Plug(p, t))
    ensures Span(p, t) == Nodes(Plug(p, t))
    decreases p
  {
    match p
    case AtRoot =>
    case InLeft(up, c, v, r) => Rise(m, root, up, Tree.Node(c, t, v, r));
    case InRight(up, c, l, v) => Rise(m, root, up, Tree.Node(c, l, v, t));
  }

  /** The hole one level further up. */
  lemma UpLeft(m: Cells, root: Node?, up: Trail, c: Color, t: Shape, v: Node, r: Shape)
    ensures At(m, root, InLeft(up, c, v, r), t) <==> At(m, root, up, Tree.Node(c, t, v, r))
    ensures Span(InLeft(up, c, v, r), t) == Span(up, Tree.Node(c, t, v, r))
  {
  }

  lemma UpRight(m: Cells, root: Node?, up: Trail, c: Color, l: Shape, v: Node, t: Shape)
    ensures At(m, root, InRight(up, c, l, v), t) <==> At(m, root, up, Tree.Node(c, l, v, t))
    ensures Span(InRight(up, c, l, v), t) == Span(up, Tree.Node(c, l, v, t))
  {
  }

  /** Repainting the top of the subtree in the hole. */
  lemma Repaint(m: Cells, root: Node?, p: Trail, t: Shape, c: Color)
    requires At(m, root, p, t) && t.Node?
    ensures t.item in m && At(m[t.item := m[t.item].(color := c)], root, p, t.(color := c))
  {
    var m' := m[t.item := m[t.item].(color := c)];
    KeepTrail(m, m', root, p, t.item, {t.item});
    KeepTree(m, m', t.left, t.item, {t.item});
    KeepTree(m, m', t.right, t.item, {t.item});
  }

  lemma RepaintLeft(m: Cells, root: Node?, up: Trail, k: Color, l: Shape, v: Node, r: Shape, c: Color)
    requires At(m, root, up, Tree.Node(k, l, v, r)) && l.Node?
    ensures l.item in m && m[l.item].parent == v && m[l.item].color == l.color
    ensures At(m[l.item := m[l.item].(color := c)], root, up, Tree.Node(k, l.(color := c), v, r))
  {
    UpLeft(m, root, up, k, l, v, r);
    Repaint(m, root, InLeft(up, k, v, r), l, c);
    UpLeft(m[l.item := m[l.item].(color := c)], root, up, k, l.(color := c), v, r);
  }

  lemma RepaintRight(m: Cells, root: Node?, up: Trail, k: Color, l: Shape, v: Node, r: Shape, c: Color)
    requires At(m, root, up, Tree.Node(k, l, v, r)) && r.Node?
    ensures r.item in m && m[r.item].parent == v && m[r.item].color == r.color
    ensures At(m[r.item := m[r.item].(color := c)], root, up, Tree.Node(k, l, v, r.(color := c)))
  {
    UpRight(m, root, up, k, l, v, r);
    Repaint(m, root, InRight(up, k, l, v), r, c);
    UpRight(m[r.item := m[r.item].(color := c)], root, up, k, l, v, r.(color := c));
  }

  // ---------------------------------------------------------------- rotations

  /** The three subtrees and two nodes of a rotation, and the rest of the tree. */
  ghost predicate Apart(up: Trail, a: Shape, x: Node, b: Shape, y: Node, e: Shape) {
    && TrailDistinct(up) && Distinct(a) && Distinct(b) && Distinct(e)
    && TrailNodes(up) !! Nodes(a) && TrailNodes(up) !! Nodes(b) && TrailNodes(up) !! Nodes(e)
    && Nodes(a) !! Nodes(b) && Nodes(a) !! Nodes(e) && Nodes(b) !! Nodes(e)
    && x != y
    && x !in TrailNodes(up) && x !in Nodes(a) && x !in Nodes(b) && x !in Nodes(e)
    && y !in TrailNodes(up) && y !in Nodes(a) && y !in Nodes(b) && y !in Nodes(e)
  }

  lemma DistinctPair(d: Color, a: Shape, x: Node, b: Shape)
    ensures Nodes(Tree.Node(d, a, x, b)) == Nodes(a) + {x} + Nodes(b)
    ensures Distinct(Tree.Node(d, a, x, b)) <==>
      Distinct(a) && Distinct(b) && Nodes(a) !! Nodes(b) && x !in Nodes(a) && x !in Nodes(b)
  {
  }

  lemma ApartRight(up: Trail, c: Color, d: Color, a: Shape, x: Node, b: Shape, y: Node, e: Shape)
    ensures Placed(up, Tree.Node(c, Tree.Node(d, a, x, b), y, e)) <==> Apart(up, a, x, b, y, e)
  {
    var s := Tree.Node(d, a, x, b);
    DistinctPair(d, a, x, b);
    DistinctPair(c, s, y, e);
  }

  lemma ApartLeft(up: Trail, c: Color, d: Color, a: Shape, x: Node, b: Shape, y: Node, e: Shape)
    ensures Placed(up, Tree.Node(c, a, x, Tree.Node(d, b, y, e))) <==> Apart(up, a, x, b, y, e)
  {
    var s := Tree.Node(d, b, y, e);
    DistinctPair(d, b, y, e);
    DistinctPair(c, a, x, s);
  }

  /** The stores of a right rotation: x rises over y, and b moves from x to y. */
  ghost predicate RotatedRight(m: Cells, m': Cells, up: Trail, x: Node, b: Node?, y: Node, cx: Color, cy: Color) {
    && x in m && y in m && x in m' && y in m'
    && m'[x] == Cell(m[y].parent, cx, m[x].left, y)
    && m'[y] == Cell(x, cy, b, m[y].right)
    && (b != null ==> b in m && b in m' && m'[b] == m[b].(parent := y))
    && Hung(m, m', up, x)
    && Agree(m, m', {x, y} + Only(b) + Only(Above(up)))
  }

  ghost predicate RotatedLeft(m: Cells, m': Cells, up: Trail, x: Node, b: Node?, y: Node, cx: Color, cy: Color) {
    && x in m && y in m && x in m' && y in m'
    && m'[y] == Cell(m[x].parent, cy, x, m[y].right)
    && m'[x] == Cell(y, cx, m[x].left, b)
    && (b != null ==> b in m && b in m' && m'[b] == m[b].(parent := x))
    && Hung(m, m', up, y)
    && Agree(m, m', {x, y} + Only(b) + Only(Above(up)))
  }

  /** What the stores of a rotation rely on: the nodes they touch are different objects,
      and `top` really hangs from the trail. */
  ghost predicate Ready(m: Cells, up: Trail, x: Node, b: Node?, y: Node, top: Node) {
    && x in m && y in m && top in {x, y} && x != y
    && Above(up) != x && Above(up) != y && b != x && b != y
    && (b != null ==> b in m && b != Above(up))
    && m[top].parent == Above(up) && Hangs(m, up, top)
  }

  /** Which child of the parent the hole is can be told from the left link alone. */
  ghost predicate Hangs(m: Cells, p: Trail, hole: Node) {
    match p
    case AtRoot => true
    case InLeft(_, _, v, _) => v in m && m[v].left == hole
    case InRight(_, _, _, v) => v in m && m[v].left != hole
  }

  /** What `rotate_set_parents` does: `now` takes the place, parent and colour of `was`. */
  ghost predicate Reparented(m: Cells, m': Cells, p: Trail, was: Node, now: Node, color: Color) {
    && was in m && now in m && was in m' && now in m'
    && m'[now] == m[now].(parent := m[was].parent, color := m[was].color)
    && m'[was] == m[was].(parent := now, color := color)
    && Hung(m, m', p, now)
    && Agree(m, m', {was, now} + Only(Above(p)))
  }

  /** `if (n) set_parent_color (n, parent, color)` */
  ghost function PaintIf(m: Cells, n: Node?, parent: Node?, color: Color): Cells
    requires n == null || n in m
  {
    if n == null then m else m[n := m[n].(parent := parent, color := color)]
  }

  lemma Members(up: Trail, t: Shape)
    ensures Only(Above(up)) <= TrailNodes(up) && Only(Top(t)) <= Nodes(t)
  {
  }

  lemma RotateRight(m: Cells, m': Cells, root: Node?, up: Trail, c: Color, d: Color, a: Shape, x: Node, b: Shape,
      y: Node, e: Shape, cx: Color, cy: Color)
    requires At(m, root, up, Tree.Node(c, Tree.Node(d, a, x, b), y, e))
    requires RotatedRight(m, m', up, x, Top(b), y, cx, cy)
    ensures At(m', HangRoot(root, up, x), up, Tree.Node(cx, a, x, Tree.Node(cy, b, y, e)))
  {
    var ch := {x, y} + Only(Top(b)) + Only(Above(up));
    assert Linked(m, Tree.Node(d, a, x, b), y);
    ApartRight(up, c, d, a, x, b, y, e);
    ApartLeft(up, cx, cy, a, x, b, y, e);
    Members(up, b);
    Refill(m, m', root, up, y, x, ch);
    KeepTree(m, m', a, x, ch);
    KeepTree(m, m', e, y, ch);
    Rehang(m, m', b, x, y, ch);
  }

  lemma RotateLeft(m: Cells, m': Cells, root: Node?, up: Trail, c: Color, d: Color, a: Shape, x: Node, b: Shape,
      y: Node, e: Shape, cx: Color, cy: Color)
    requires At(m, root, up, Tree.Node(c, a, x, Tree.Node(d, b, y, e)))
    requires RotatedLeft(m, m', up, x, Top(b), y, cx, cy)
    ensures At(m', HangRoot(root, up, y), up, Tree.Node(cy, Tree.Node(cx, a, x, b), y, e))
  {
    var ch := {x, y} + Only(Top(b)) + Only(Above(up));
    assert Linked(m, Tree.Node(d, b, y, e), x);
    ApartLeft(up, c, d, a, x, b, y, e);
    ApartRight(up, cy, cx, a, x, b, y, e);
    Members(up, b);
    Refill(m, m', root, up, x, y, ch);
    KeepTree(m, m', a, x, ch);
    KeepTree(m, m', e, y, ch);
    Rehang(m, m', b, y, x, ch);
  }

  lemma AroundHangs(m: Cells, root: Node?, p: Trail, hole: Node)
    requires Around(m, root, p, hole) && hole !in TrailNodes(p)
    ensures Hangs(m, p, hole) && Above(p) != hole
  {
    if p.InRight? {
      Members(p.up, p.left);
    }
  }

  lemma ReadyRight(m: Cells, root: Node?, up: Trail, c: Color, d: Color, a: Shape, x: Node, b: Shape, y: Node, e: Shape)
    requires At(m, root, up, Tree.Node(c, Tree.Node(d, a, x, b), y, e))
    ensures Ready(m, up, x, Top(b), y, y) && m[x].right == Top(b) && m[y].left == x
    ensures m[x].color == d && m[y].color == c
    ensures b.Node? ==> m[b.item].color == b.color
  {
    assert Linked(m, Tree.Node(d, a, x, b), y) && Linked(m, b, x);
    ApartRight(up, c, d, a, x, b, y, e);
    Members(up, b);
    AroundHangs(m, root, up, y);
  }

  lemma ReadyLeft(m: Cells, root: Node?, up: Trail, c: Color, d: Color, a: Shape, x: Node, b: Shape, y: Node, e: Shape)
    requires At(m, root, up, Tree.Node(c, a, x, Tree.Node(d, b, y, e)))
    ensures Ready(m, up, x, Top(b), y, x) && m[y].left == Top(b) && m[x].right == y
    ensures m[x].color == c && m[y].color == d
    ensures b.Node? ==> m[b.item].color == b.color
  {
    assert Linked(m, Tree.Node(d, b, y, e), x) && Linked(m, b, y);
    ApartLeft(up, c, d, a, x, b, y, e);
    Members(up, b);
    AroundHangs(m, root, up, x);
  }

  /** Storing a rotation: hand b over, then exchange the roles of the two nodes. */
  lemma StoresRotateRight(m: Cells, m': Cells, up: Trail, x: Node, b: Node?, y: Node, c: Color, cb: Color)
    requires Ready(m, up, x, b, y, y) && (b != null ==> m[b].color == cb)
    requires Reparented(PaintIf(m[y := m[y].(left := b)][x := m[x].(right := y)], b, y, cb), m', up, y, x, c)
    ensures RotatedRight(m, m', up, x, b, y, m[y].color, c)
  {
  }

  lemma StoresRotateLeft(m: Cells, m': Cells, up: Trail, x: Node, b: Node?, y: Node, c: Color, cb: Color)
    requires Ready(m, up, x, b, y, x) && (b != null ==> m[b].color == cb)
    requires Reparented(PaintIf(m[x := m[x].(right := b)][y := m[y].(left := x)], b, x, cb), m', up, x, y, c)
    ensures RotatedLeft(m, m', up, x, b, y, c, m[x].color)
  {
  }

  // ---------------------------------------------------------------- insertion repair

  /** The stores of case 2 on the left. They leave two links stale: the grandparent's
      left one and node's parent. */
  ghost function Case2Left(m: Cells, node: Node, parent: Node, tmp: Node?): Cells
    requires node in m && parent in m && (tmp == null || tmp in m)
  {
    var m' := PaintIf(m[parent := m[parent].(right := tmp)][node := m[node].(left := parent)], tmp, parent, Black);
    m'[parent := m'[parent].(parent := node, color := Red)]
  }

  ghost function Case2Right(m: Cells, node: Node, parent: Node, tmp: Node?): Cells
    requires node in m && parent in m && (tmp == null || tmp in m)
  {
    var m' := PaintIf(m[parent := m[parent].(left := tmp)][node := m[node].(right := parent)], tmp, parent, Black);
    m'[parent := m'[parent].(parent := node, color := Red)]
  }

  ghost function FreshenLeft(m: Cells, node: Node, g: Node): Cells
    requires node in m && g in m
  {
    var m' := m[node := m[node].(parent := g)];
    m'[g := m'[g].(left := node)]
  }

  ghost function FreshenRight(m: Cells, node: Node, g: Node): Cells
    requires node in m && g in m
  {
    var m' := m[node := m[node].(parent := g)];
    m'[g := m'[g].(right := node)]
  }

  /** With the stale links put right, case 2 is a rotation at parent. */
  lemma Case2LeftRotates(m: Cells, up: Trail, g: Node, u: Shape, node: Node, parent: Node, tmp: Node?)
    requires g in m && Ready(m, InLeft(up, Black, g, u), parent, tmp, node, parent)
    requires (tmp != null ==> m[tmp].color == Black) && m[parent].color == Red && m[node].color == Red
    ensures RotatedLeft(m, FreshenLeft(Case2Left(m, node, parent, tmp), node, g), InLeft(up, Black, g, u), parent, tmp,
      node, Red, Red)
  {
  }

  lemma Case2RightRotates(m: Cells, up: Trail, g: Node, u: Shape, node: Node, parent: Node, tmp: Node?)
    requires g in m && Ready(m, InRight(up, Black, u, g), node, tmp, parent, parent)
    requires (tmp != null ==> m[tmp].color == Black) && m[parent].color == Red && m[node].color == Red
    ensures RotatedRight(m, FreshenRight(Case2Right(m, node, parent, tmp), node, g), InRight(up, Black, u, g), node,
      tmp, parent, Red, Red)
  {
  }

  /** Case 3 does not read what case 2 left stale. */
  lemma StaleLeft(m: Cells, m': Cells, up: Trail, node: Node, b: Node?, g: Node)
    requires node in m && g in m
    requires Ready(FreshenLeft(m, node, g), up, node, b, g, g)
    ensures Ready(m, up, node, b, g, g)
    ensures RotatedRight(m, m', up, node, b, g, Black, Red) ==>
      RotatedRight(FreshenLeft(m, node, g), m', up, node, b, g, Black, Red)
  {
  }

  lemma StaleRight(m: Cells, m': Cells, up: Trail, node: Node, b: Node?, g: Node)
    requires node in m && g in m
    requires Ready(FreshenRight(m, node, g), up, g, b, node, g)
    ensures Ready(m, up, g, b, node, g)
    ensures RotatedLeft(m, m', up, g, b, node, Red, Black) ==>
      RotatedLeft(FreshenRight(m, node, g), m', up, g, b, node, Red, Black)
  {
  }

  /** Case 2 can be stored, and then case 3 can. */
  lemma InnerLeftReady(m: Cells, root: Node?, up: Trail, l: Shape, parent: Node, a: Shape, node: Node, b: Shape,
      g: Node, u: Shape)
    requires At(m, root, up, Tree.Node(Black, Tree.Node(Red, l, parent, Tree.Node(Red, a, node, b)), g, u))
    requires RootColor(a) == Black
    ensures g in m && Ready(m, InLeft(up, Black, g, u), parent, Top(a), node, parent) && m[node].left == Top(a)
    ensures var m2 := Case2Left(m, node, parent, Top(a));
      && Ready(m2, up, node, Top(b), g, g) && m2[node].right == Top(b) && m2[g].color == Black
      && (b.Node? ==> m2[b.item].color == b.color)
  {
    InnerLeftFull(m, root, up, l, parent, a, node, b, g, u);
    var m2 := Case2Left(m, node, parent, Top(a));
    ReadyRight(FreshenLeft(m2, node, g), root, up, Black, Red, Tree.Node(Red, l, parent, a), node, b, g, u);
    StaleLeft(m2, m2, up, node, Top(b), g);
  }

  lemma InnerLeftFull(m: Cells, root: Node?, up: Trail, l: Shape, parent: Node, a: Shape, node: Node, b: Shape,
      g: Node, u: Shape)
    requires At(m, root, up, Tree.Node(Black, Tree.Node(Red, l, parent, Tree.Node(Red, a, node, b)), g, u))
    requires RootColor(a) == Black
    ensures g in m && Ready(m, InLeft(up, Black, g, u), parent, Top(a), node, parent) && m[node].left == Top(a)
    ensures At(FreshenLeft(Case2Left(m, node, parent, Top(a)), node, g), root, up,
      Tree.Node(Black, Tree.Node(Red, Tree.Node(Red, l, parent, a), node, b), g, u))
  {
    var q := InLeft(up, Black, g, u);
    UpLeft(m, root, up, Black, Tree.Node(Red, l, parent, Tree.Node(Red, a, node, b)), g, u);
    ReadyLeft(m, root, q, Red, Red, l, parent, a, node, b);
    Case2LeftRotates(m, up, g, u, node, parent, Top(a));
    var m2 := Case2Left(m, node, parent, Top(a));
    var full := FreshenLeft(m2, node, g);
    RotateLeft(m, full, root, q, Red, Red, l, parent, a, node, b, Red, Red);
    UpLeft(full, root, up, Black, Tree.Node(Red, Tree.Node(Red, l, parent, a), node, b), g, u);
  }

  lemma InnerLeftDone(m: Cells, m': Cells, root: Node?, up: Trail, l: Shape, parent: Node, a: Shape, node: Node,
      b: Shape, g: Node, u: Shape)
    requires At(m, root, up, Tree.Node(Black, Tree.Node(Red, l, parent, Tree.Node(Red, a, node, b)), g, u))
    requires RootColor(a) == Black && node in m && parent in m && (a.Node? ==> a.item in m)
    requires RotatedRight(Case2Left(m, node, parent, Top(a)), m', up, node, Top(b), g, Black, Red)
    ensures At(m', HangRoot(root, up, node), up,
      Tree.Node(Black, Tree.Node(Red, l, parent, a), node, Tree.Node(Red, b, g, u)))
  {
    InnerLeftFull(m, root, up, l, parent, a, node, b, g, u);
    var m2 := Case2Left(m, node, parent, Top(a));
    var full := FreshenLeft(m2, node, g);
    ReadyRight(full, root, up, Black, Red, Tree.Node(Red, l, parent, a), node, b, g, u);
    StaleLeft(m2, m', up, node, Top(b), g);
    RotateRight(full, m', root, up, Black, Red, Tree.Node(Red, l, parent, a), node, b, g, u, Black, Red);
  }

  lemma InnerRightReady(m: Cells, root: Node?, up: Trail, u: Shape, g: Node, a: Shape, node: Node, b: Shape,
      parent: Node, r: Shape)
    requires At(m, root, up, Tree.Node(Black, u, g, Tree.Node(Red, Tree.Node(Red, a, node, b), parent, r)))
    requires RootColor(b) == Black
    ensures g in m && Ready(m, InRight(up, Black, u, g), node, Top(b), parent, parent) && m[node].right == Top(b)
    ensures var m2 := Case2Right(m, node, parent, Top(b));
      && Ready(m2, up, g, Top(a), node, g) && m2[node].left == Top(a) && m2[g].color == Black
      && (a.Node? ==> m2[a.item].color == a.color)
  {
    InnerRightFull(m, root, up, u, g, a, node, b, parent, r);
    var m2 := Case2Right(m, node, parent, Top(b));
    ReadyLeft(FreshenRight(m2, node, g), root, up, Black, Red, u, g, a, node, Tree.Node(Red, b, parent, r));
    StaleRight(m2, m2, up, node, Top(a), g);
  }

  lemma InnerRightFull(m: Cells, root: Node?, up: Trail, u: Shape, g: Node, a: Shape, node: Node, b: Shape,
      parent: Node, r: Shape)
    requires At(m, root, up, Tree.Node(Black, u, g, Tree.Node(Red, Tree.Node(Red, a, node, b), parent, r)))
    requires RootColor(b) == Black
    ensures g in m && Ready(m, InRight(up, Black, u, g), node, Top(b), parent, parent) && m[node].right == Top(b)
    ensures At(FreshenRight(Case2Right(m, node, parent, Top(b)), node, g), root, up,
      Tree.Node(Black, u, g, Tree.Node(Red, a, node, Tree.Node(Red, b, parent, r))))
  {
    var q := InRight(up, Black, u, g);
    UpRight(m, root, up, Black, u, g, Tree.Node(Red, Tree.Node(Red, a, node, b), parent, r));
    ReadyRight(m, root, q, Red, Red, a, node, b, parent, r);
    Case2RightRotates(m, up, g, u, node, parent, Top(b));
    var m2 := Case2Right(m, node, parent, Top(b));
    var full := FreshenRight(m2, node, g);
    RotateRight(m, full, root, q, Red, Red, a, node, b, parent, r, Red, Red);
    UpRight(full, root, up, Black, u, g, Tree.Node(Red, a, node, Tree.Node(Red, b, parent, r)));
  }

  lemma InnerRightDone(m: Cells, m': Cells, root: Node?, up: Trail, u: Shape, g: Node, a: Shape, node: Node, b: Shape,
      parent: Node, r: Shape)
    requires At(m, root, up, Tree.Node(Black, u, g, Tree.Node(Red, Tree.Node(Red, a, node, b), parent, r)))
    requires RootColor(b) == Black && node in m && parent in m && (b.Node? ==> b.item in m)
    requires RotatedLeft(Case2Right(m, node, parent, Top(b)), m', up, g, Top(a), node, Red, Black)
    ensures At(m', HangRoot(root, up, node), up,
      Tree.Node(Black, Tree.Node(Red, u, g, a), node, Tree.Node(Red, b, parent, r)))
  {
    InnerRightFull(m, root, up, u, g, a, node, b, parent, r);
    var m2 := Case2Right(m, node, parent, Top(b));
    var full := FreshenRight(m2, node, g);
    ReadyLeft(full, root, up, Black, Red, u, g, a, node, Tree.Node(Red, b, parent, r));
    StaleRight(m2, m', up, node, Top(a), g);
    RotateLeft(full, m', root, up, Black, Red, u, g, a, node, Tree.Node(Red, b, parent, r), Red, Black);
  }

  /** The parent's subtree `q`, and the whole seen from the grandparent on its right. */
  lemma LiftTwiceLeft(m: Cells, root: Node?, p: Trail, up: Trail, g: Node, u: Shape, t: Shape)
    requires At(m, root, p, t) && !p.AtRoot? && p.up == InLeft(up, Black, g, u)
    ensures var q := Lift(p, t);
      && At(m, root, up, Tree.Node(Black, q, g, u)) && Items(up, Tree.Node(Black, q, g, u)) == Items(p, t)
      && g in m && m[g].right == Top(u) && (u.Node? ==> u.item in m && m[u.item].color == u.color)
      && p.item in m && m[p.item].right == (if p.InLeft? then Top(p.right) else Top(t))
      && (t.Node? && p.InLeft? ==> m[p.item].right != t.item)
  {
    if p.InLeft? {
      UpLeft(m, root, p.up, p.color, t, p.item, p.right);
      ItemsUpLeft(p.up, p.color, t, p.item, p.right);
      UpLeft(m, root, up, Black, Tree.Node(p.color, t, p.item, p.right), g, u);
      ItemsUpLeft(up, Black, Tree.Node(p.color, t, p.item, p.right), g, u);
      Members(up, p.right);
    } else {
      UpRight(m, root, p.up, p.color, p.left, p.item, t);
      ItemsUpRight(p.up, p.color, p.left, p.item, t);
      UpLeft(m, root, up, Black, Tree.Node(p.color, p.left, p.item, t), g, u);
      ItemsUpLeft(up, Black, Tree.Node(p.color, p.left, p.item, t), g, u);
    }
  }

  lemma LiftTwiceRight(m: Cells, root: Node?, p: Trail, up: Trail, g: Node, u: Shape, t: Shape)
    requires At(m, root, p, t) && !p.AtRoot? && p.up == InRight(up, Black, u, g)
    ensures var q := Lift(p, t);
      && At(m, root, up, Tree.Node(Black, u, g, q)) && Items(up, Tree.Node(Black, u, g, q)) == Items(p, t)
      && g in m && m[g].left == Top(u) && (u.Node? ==> u.item in m && m[u.item].color == u.color)
      && p.item in m && m[p.item].left == (if p.InLeft? then Top(t) else Top(p.left))
      && (t.Node? && p.InRight? ==> m[p.item].left != t.item)
  {
    if p.InLeft? {
      UpLeft(m, root, p.up, p.color, t, p.item, p.right);
      ItemsUpLeft(p.up, p.color, t, p.item, p.right);
      UpRight(m, root, up, Black, u, g, Tree.Node(p.color, t, p.item, p.right));
      ItemsUpRight(up, Black, u, g, Tree.Node(p.color, t, p.item, p.right));
    } else {
      UpRight(m, root, p.up, p.color, p.left, p.item, t);
      ItemsUpRight(p.up, p.color, p.left, p.item, t);
      UpRight(m, root, up, Black, u, g, Tree.Node(p.color, p.left, p.item, t));
      ItemsUpRight(up, Black, u, g, Tree.Node(p.color, p.left, p.item, t));
      Members(up, p.left);
    }
  }

  /** Which child of the grandparent the parent is can be told from the right link. */
  lemma GrandparentSide(m: Cells, root: Node?, p: Trail, t: Shape)
    requires At(m, root, p, t) && !p.AtRoot? && !p.up.AtRoot?
    ensures p.item in m && m[p.item].parent == p.up.item && p.up.item in m
    ensures m[p.up.item].right == p.item <==> p.up.InRight?
  {
    assert Around(m, root, p.up, p.item);
    if p.up.InLeft? {
      Members(AtRoot, p.up.right);
    }
  }

  /** What the hole and the node above it can read of the tree. */
  lemma Look(m: Cells, root: Node?, p: Trail, t: Shape)
    requires At(m, root, p, t)
    ensures t.Node? ==> t.item in m && m[t.item] == Cell(Above(p), t.color, Top(t.left), Top(t.right))
    ensures !p.AtRoot? ==> p.item in m && m[p.item].color == p.color
  {
  }

  /** A tree settled at its hole is a red-black tree, seen from the root. */
  lemma Whole(m: Cells, root: Node?, p: Trail, t: Shape)
    requires At(m, root, p, t) && Settled(p, t)
    ensures At(m, root, AtRoot, Plug(p, t)) && RedBlack(Plug(p, t))
    ensures InOrder(Plug(p, t)) == Items(p, t) && Nodes(Plug(p, t)) == Span(p, t)
  {
    FitsPlug(p, t);
    PlugInOrder(p, t);
    Rise(m, root, p, t);
  }

  // ---------------------------------------------------------------- erasure repair

  /** The stores of case 4 beside the rotation: the far nephew turns black. */
  ghost function Paint(m: Cells, n: Node, parent: Node?, color: Color): Cells
    requires n in m
  {
    m[n := m[n].(parent := parent, color := color)]
  }

  /** The stores of case 4 before the two nodes exchange their roles. */
  ghost function Case4LeftStores(m: Cells, x: Node, b: Node?, y: Node, far: Node): Cells
    requires x in m && y in m && far in m && (b == null || b in m)
  {
    var m1 := Paint(m[x := m[x].(right := b)][y := m[y].(left := x)], far, y, Black);
    if b == null then m1 else m1[b := m1[b].(parent := x)]
  }

  ghost function Case4RightStores(m: Cells, x: Node, b: Node?, y: Node, far: Node): Cells
    requires x in m && y in m && far in m && (b == null || b in m)
  {
    var m1 := Paint(m[y := m[y].(left := b)][x := m[x].(right := y)], far, x, Black);
    if b == null then m1 else m1[b := m1[b].(parent := y)]
  }

  /** Storing case 4: like any rotation, with the far nephew painted on the way. */
  lemma StoresCase4Left(m: Cells, m': Cells, up: Trail, x: Node, b: Node?, y: Node, far: Node)
    requires Ready(m, up, x, b, y, x) && far in m && far != x && far != y && Only(far) !! Only(b) &&
      Only(far) !! Only(Above(up))
    ensures var m1 := Case4LeftStores(m, x, b, y, far);
      && Hangs(m1, up, x) && m1[x].parent == Above(up)
      && (Reparented(m1, m', up, x, y, Black) ==>
        RotatedLeft(Paint(m, far, y, Black), m', up, x, b, y, Black, m[x].color))
  {
  }

  lemma StoresCase4Right(m: Cells, m': Cells, up: Trail, x: Node, b: Node?, y: Node, far: Node)
    requires Ready(m, up, x, b, y, y) && far in m && far != x && far != y && Only(far) !! Only(b) &&
      Only(far) !! Only(Above(up))
    ensures var m1 := Case4RightStores(m, x, b, y, far);
      && Hangs(m1, up, y) && m1[y].parent == Above(up)
      && (Reparented(m1, m', up, y, x, Black) ==>
        RotatedRight(Paint(m, far, x, Black), m', up, x, b, y, m[y].color, Black))
  {
  }

  /** The stores of case 3 on the left: they leave the parent links of the two rotated
      nodes stale. */
  ghost function Case3LeftStores(m: Cells, parent: Node, s: Node, n: Node, b: Node?): Cells
    requires parent in m && s in m && n in m && (b == null || b in m)
  {
    var m1 := m[s := m[s].(left := b)];
    var m2 := m1[n := m1[n].(right := s)];
    var m3 := m2[parent := m2[parent].(right := n)];
    PaintIf(m3, b, s, Black)
  }

  ghost function Case3RightStores(m: Cells, parent: Node, s: Node, n: Node, b: Node?): Cells
    requires parent in m && s in m && n in m && (b == null || b in m)
  {
    var m1 := m[s := m[s].(right := b)];
    var m2 := m1[n := m1[n].(left := s)];
    var m3 := m2[parent := m2[parent].(left := n)];
    PaintIf(m3, b, s, Black)
  }

  /** The stale links put right. */
  ghost function Freshen(m: Cells, parent: Node, s: Node, n: Node): Cells
    requires s in m && n in m
  {
    var m1 := m[s := m[s].(parent := n)];
    m1[n := m1[n].(parent := parent)]
  }

  lemma Case3LeftRotates(m: Cells, up: Trail, c: Color, t: Shape, parent: Node, n: Node, b: Node?, s: Node)
    requires Ready(m, InRight(up, c, t, parent), n, b, s, s) && m[n].color == Red && m[s].color == Black
    requires b != null ==> m[b].color == Black
    ensures parent in m
    ensures RotatedRight(m, Freshen(Case3LeftStores(m, parent, s, n, b), parent, s, n), InRight(up, c, t, parent), n,
      b, s, Red, Black)
  {
  }

  lemma Case3RightRotates(m: Cells, up: Trail, c: Color, t: Shape, parent: Node, n: Node, b: Node?, s: Node)
    requires Ready(m, InLeft(up, c, parent, t), s, b, n, s) && m[n].color == Red && m[s].color == Black
    requires b != null ==> m[b].color == Black
    ensures parent in m
    ensures RotatedLeft(m, Freshen(Case3RightStores(m, parent, s, n, b), parent, s, n), InLeft(up, c, parent, t), s, b,
      n, Black, Red)
  {
  }

  /** Case 4 can be stored, and what it leaves. */
  lemma Case4LeftReady(m: Cells, root: Node?, up: Trail, c: Color, d: Color, t: Shape, v: Node, a: Shape, s: Node,
      b: Shape)
    requires At(m, root, up, Tree.Node(c, t, v, Tree.Node(d, a, s, b))) && b.Node?
    ensures Ready(m, up, v, Top(a), s, v) && m[v].right == s && m[s].left == Top(a) && m[s].right == b.item &&
      m[v].color == c
    ensures b.item in m && b.item != v && b.item != s && Only(b.item) !! Only(Top(a)) && Only(b.item) !! Only(Above(up))
  {
    ReadyLeft(m, root, up, c, d, t, v, a, s, b);
    assert Linked(m, Tree.Node(d, a, s, b), v) && Linked(m, b, s);
    ApartLeft(up, c, d, t, v, a, s, b);
    Members(up, a);
    Members(up, b);
  }

  lemma Case4LeftDone(m: Cells, m': Cells, root: Node?, up: Trail, c: Color, t: Shape, v: Node, a: Shape, s: Node,
      b: Shape)
    requires At(m, root, up, Tree.Node(c, t, v, Tree.Node(Black, a, s, b))) && b.Node? && b.item in m
    requires RotatedLeft(Paint(m, b.item, s, Black), m', up, v, Top(a), s, Black, c)
    ensures At(m', HangRoot(root, up, s), up, Tree.Node(c, Tree.Node(Black, t, v, a), s, b.(color := Black)))
  {
    UpRight(m, root, up, c, t, v, Tree.Node(Black, a, s, b));
    RepaintRight(m, root, InRight(up, c, t, v), Black, a, s, b, Black);
    var m1 := Paint(m, b.item, s, Black);
    UpRight(m1, root, up, c, t, v, Tree.Node(Black, a, s, b.(color := Black)));
    RotateLeft(m1, m', root, up, c, Black, t, v, a, s, b.(color := Black), Black, c);
  }

  lemma Case4RightReady(m: Cells, root: Node?, up: Trail, c: Color, d: Color, b: Shape, s: Node, a: Shape, v: Node,
      t: Shape)
    requires At(m, root, up, Tree.Node(c, Tree.Node(d, b, s, a), v, t)) && b.Node?
    ensures Ready(m, up, s, Top(a), v, v) && m[v].left == s && m[s].right == Top(a) && m[s].left == b.item &&
      m[v].color == c
    ensures b.item in m && b.item != v && b.item != s && Only(b.item) !! Only(Top(a)) && Only(b.item) !! Only(Above(up))
  {
    ReadyRight(m, root, up, c, d, b, s, a, v, t);
    assert Linked(m, Tree.Node(d, b, s, a), v) && Linked(m, b, s);
    ApartRight(up, c, d, b, s, a, v, t);
    Members(up, a);
    Members(up, b);
  }

  lemma Case4RightDone(m: Cells, m': Cells, root: Node?, up: Trail, c: Color, b: Shape, s: Node, a: Shape, v: Node,
      t: Shape)
    requires At(m, root, up, Tree.Node(c, Tree.Node(Black, b, s, a), v, t)) && b.Node? && b.item in m
    requires RotatedRight(Paint(m, b.item, s, Black), m', up, s, Top(a), v, c, Black)
    ensures At(m', HangRoot(root, up, s), up, Tree.Node(c, b.(color := Black), s, Tree.Node(Black, a, v, t)))
  {
    UpLeft(m, root, up, c, Tree.Node(Black, b, s, a), v, t);
    RepaintLeft(m, root, InLeft(up, c, v, t), Black, b, s, a, Black);
    var m1 := Paint(m, b.item, s, Black);
    UpLeft(m1, root, up, c, Tree.Node(Black, b.(color := Black), s, a), v, t);
    RotateRight(m1, m', root, up, c, Black, b.(color := Black), s, a, v, t, c, Black);
  }

  /** Case 3, stale links put right, is a rotation at the sibling. */
  lemma Case3LeftFull(m: Cells, root: Node?, up: Trail, c: Color, t: Shape, v: Node, a: Shape, n: Node, b: Shape,
      s: Node, e: Shape)
    requires At(m, root, up, Tree.Node(c, t, v, Tree.Node(Black, Tree.Node(Red, a, n, b), s, e))) &&
      RootColor(b) == Black
    ensures v in m && Ready(m, InRight(up, c, t, v), n, Top(b), s, s) && m[n].right == Top(b)
    ensures At(Freshen(Case3LeftStores(m, v, s, n, Top(b)), v, s, n), root, up,
      Tree.Node(c, t, v, Tree.Node(Red, a, n, Tree.Node(Black, b, s, e))))
  {
    var q := InRight(up, c, t, v);
    UpRight(m, root, up, c, t, v, Tree.Node(Black, Tree.Node(Red, a, n, b), s, e));
    ReadyRight(m, root, q, Black, Red, a, n, b, s, e);
    Case3LeftRotates(m, up, c, t, v, n, Top(b), s);
    var full := Freshen(Case3LeftStores(m, v, s, n, Top(b)), v, s, n);
    RotateRight(m, full, root, q, Black, Red, a, n, b, s, e, Red, Black);
    UpRight(full, root, up, c, t, v, Tree.Node(Red, a, n, Tree.Node(Black, b, s, e)));
  }

  lemma Case3RightFull(m: Cells, root: Node?, up: Trail, c: Color, e: Shape, s: Node, a: Shape, n: Node, b: Shape,
      v: Node, t: Shape)
    requires At(m, root, up, Tree.Node(c, Tree.Node(Black, e, s, Tree.Node(Red, a, n, b)), v, t)) &&
      RootColor(a) == Black
    ensures v in m && Ready(m, InLeft(up, c, v, t), s, Top(a), n, s) && m[n].left == Top(a)
    ensures At(Freshen(Case3RightStores(m, v, s, n, Top(a)), v, s, n), root, up,
      Tree.Node(c, Tree.Node(Red, Tree.Node(Black, e, s, a), n, b), v, t))
  {
    var q := InLeft(up, c, v, t);
    UpLeft(m, root, up, c, Tree.Node(Black, e, s, Tree.Node(Red, a, n, b)), v, t);
    ReadyLeft(m, root, q, Black, Red, e, s, a, n, b);
    Case3RightRotates(m, up, c, t, v, n, Top(a), s);
    var full := Freshen(Case3RightStores(m, v, s, n, Top(a)), v, s, n);
    RotateLeft(m, full, root, q, Black, Red, e, s, a, n, b, Black, Red);
    UpLeft(full, root, up, c, Tree.Node(Red, Tree.Node(Black, e, s, a), n, b), v, t);
  }

  /** Case 4 does not read what case 3 left stale. */
  lemma StaleCase4Left(m: Cells, m': Cells, up: Trail, v: Node, a: Node?, n: Node, s: Node)
    requires v in m && s in m && n in m && m[s].color == Black && s != n && s != v
    requires Ready(Freshen(m, v, s, n), up, v, a, n, v)
    ensures Ready(m, up, v, a, n, v)
    ensures RotatedLeft(Paint(m, s, n, Black), m', up, v, a, n, Black, m[v].color) ==>
      RotatedLeft(Freshen(m, v, s, n), m', up, v, a, n, Black, m[v].color)
  {
  }

  lemma StaleCase4Right(m: Cells, m': Cells, up: Trail, v: Node, a: Node?, n: Node, s: Node)
    requires v in m && s in m && n in m && m[s].color == Black && s != n && s != v
    requires Ready(Freshen(m, v, s, n), up, n, a, v, v)
    ensures Ready(m, up, n, a, v, v)
    ensures RotatedRight(Paint(m, s, n, Black), m', up, n, a, v, m[v].color, Black) ==>
      RotatedRight(Freshen(m, v, s, n), m', up, n, a, v, m[v].color, Black)
  {
  }

  lemma ShortInnerLeftReady(m: Cells, root: Node?, up: Trail, c: Color, t: Shape, v: Node, a: Shape, n: Node, b: Shape,
      s: Node, e: Shape)
    requires At(m, root, up, Tree.Node(c, t, v, Tree.Node(Black, Tree.Node(Red, a, n, b), s, e))) &&
      RootColor(b) == Black
    ensures v in m && Ready(m, InRight(up, c, t, v), n, Top(b), s, s) && m[n].right == Top(b)
    ensures var m2 := Case3LeftStores(m, v, s, n, Top(b));
      && Ready(m2, up, v, Top(a), n, v) && m2[n].left == Top(a) && m2[v].color == c && s in m2 && m2[s].color == Black
      && s != v && s != n && Only(s) !! Only(Top(a)) && Only(s) !! Only(Above(up))
  {
    Case3LeftFull(m, root, up, c, t, v, a, n, b, s, e);
    var m2 := Case3LeftStores(m, v, s, n, Top(b));
    Case4LeftReady(Freshen(m2, v, s, n), root, up, c, Red, t, v, a, n, Tree.Node(Black, b, s, e));
    assert m[s].color == Black by {
      UpRight(m, root, up, c, t, v, Tree.Node(Black, Tree.Node(Red, a, n, b), s, e));
    }
    StaleCase4Left(m2, m2, up, v, Top(a), n, s);
  }

  lemma ShortInnerLeftDone(m: Cells, m': Cells, root: Node?, up: Trail, c: Color, t: Shape, v: Node, a: Shape, n: Node,
      b: Shape, s: Node, e: Shape)
    requires At(m, root, up, Tree.Node(c, t, v, Tree.Node(Black, Tree.Node(Red, a, n, b), s, e))) &&
      RootColor(b) == Black
    requires v in m && s in m && n in m && (b.Node? ==> b.item in m)
    requires RotatedLeft(Paint(Case3LeftStores(m, v, s, n, Top(b)), s, n, Black), m', up, v, Top(a), n, Black, c)
    ensures At(m', HangRoot(root, up, n), up, Tree.Node(c, Tree.Node(Black, t, v, a), n, Tree.Node(Black, b, s, e)))
  {
    ShortInnerLeftReady(m, root, up, c, t, v, a, n, b, s, e);
    Case3LeftFull(m, root, up, c, t, v, a, n, b, s, e);
    var m2 := Case3LeftStores(m, v, s, n, Top(b));
    var full := Freshen(m2, v, s, n);
    ReadyLeft(full, root, up, c, Red, t, v, a, n, Tree.Node(Black, b, s, e));
    StaleCase4Left(m2, m', up, v, Top(a), n, s);
    RotateLeft(full, m', root, up, c, Red, t, v, a, n, Tree.Node(Black, b, s, e), Black, c);
  }

  lemma ShortInnerRightReady(m: Cells, root: Node?, up: Trail, c: Color, e: Shape, s: Node, a: Shape, n: Node,
      b: Shape, v: Node, t: Shape)
    requires At(m, root, up, Tree.Node(c, Tree.Node(Black, e, s, Tree.Node(Red, a, n, b)), v, t)) &&
      RootColor(a) == Black
    ensures v in m && Ready(m, InLeft(up, c, v, t), s, Top(a), n, s) && m[n].left == Top(a)
    ensures var m2 := Case3RightStores(m, v, s, n, Top(a));
      && Ready(m2, up, n, Top(b), v, v) && m2[n].right == Top(b) && m2[v].color == c && s in m2 && m2[s].color == Black
      && s != v && s != n && Only(s) !! Only(Top(b)) && Only(s) !! Only(Above(up))
  {
    Case3RightFull(m, root, up, c, e, s, a, n, b, v, t);
    var m2 := Case3RightStores(m, v, s, n, Top(a));
    Case4RightReady(Freshen(m2, v, s, n), root, up, c, Red, Tree.Node(Black, e, s, a), n, b, v, t);
    assert m[s].color == Black by {
      UpLeft(m, root, up, c, Tree.Node(Black, e, s, Tree.Node(Red, a, n, b)), v, t);
    }
    StaleCase4Right(m2, m2, up, v, Top(b), n, s);
  }

  lemma ShortInnerRightDone(m: Cells, m': Cells, root: Node?, up: Trail, c: Color, e: Shape, s: Node, a: Shape,
      n: Node, b: Shape, v: Node, t: Shape)
    requires At(m, root, up, Tree.Node(c, Tree.Node(Black, e, s, Tree.Node(Red, a, n, b)), v, t)) &&
      RootColor(a) == Black
    requires v in m && s in m && n in m && (a.Node? ==> a.item in m)
    requires RotatedRight(Paint(Case3RightStores(m, v, s, n, Top(a)), s, n, Black), m', up, n, Top(b), v, c, Black)
    ensures At(m', HangRoot(root, up, n), up, Tree.Node(c, Tree.Node(Black, e, s, a), n, Tree.Node(Black, b, v, t)))
  {
    ShortInnerRightReady(m, root, up, c, e, s, a, n, b, v, t);
    Case3RightFull(m, root, up, c, e, s, a, n, b, v, t);
    var m2 := Case3RightStores(m, v, s, n, Top(a));
    var full := Freshen(m2, v, s, n);
    ReadyRight(full, root, up, c, Red, Tree.Node(Black, e, s, a), n, b, v, t);
    StaleCase4Right(m2, m', up, v, Top(b), n, s);
    RotateRight(full, m', root, up, c, Red, Tree.Node(Black, e, s, a), n, b, v, t, c, Black);
  }

  /** What the erasure loop reads of the sibling. */
  lemma Nephews(m: Cells, s: Shape, v: Node?)
    requires Linked(m, s, v) && s.Node?
    ensures s.item in m && m[s.item].left == Top(s.left) && m[s.item].right == Top(s.right)
    ensures m[s.item].parent == v && m[s.item].color == s.color
    ensures s.left.Node? ==> s.left.item in m && m[s.left.item].color == s.left.color
    ensures s.right.Node? ==> s.right.item in m && m[s.right.item].color == s.right.color
  {
  }

  lemma SiblingRight(m: Cells, root: Node?, up: Trail, c: Color, t: Shape, v: Node, s: Shape)
    requires At(m, root, up, Tree.Node(c, t, v, s))
    ensures v in m && m[v] == Cell(Above(up), c, Top(t), Top(s)) && Linked(m, s, v) && Linked(m, t, v)
    ensures Items(up, Tree.Node(c, t, v, s)) == Items(InLeft(up, c, v, s), t)
    ensures Items(up, Tree.Node(c, t, v, s)) == Items(InRight(up, c, t, v), s)
    ensures s.Node? ==> v != s.item
    ensures t.Node? ==> v != t.item
    ensures t.Node? && s.Node? ==> t.item != s.item
  {
    ItemsUpLeft(up, c, t, v, s);
    ItemsUpRight(up, c, t, v, s);
    Members(up, s);
    Members(up, t);
  }

  lemma RedSiblingItemsLeft(up: Trail, t: Shape, v: Node, s: Shape)
    requires s.Node?
    ensures Items(InLeft(up, Black, s.item, s.right), Tree.Node(Red, t, v, s.left)) == Items(InLeft(up, Black, v, s), t)
  {
    ItemsUpLeft(up, Black, Tree.Node(Red, t, v, s.left), s.item, s.right);
    ItemsUpLeft(up, Black, t, v, s);
    SameOrder(Black, Red, Black, s.color, t, v, s.left, s.item, s.right);
  }

  lemma RedSiblingItemsRight(up: Trail, s: Shape, v: Node, t: Shape)
    requires s.Node?
    ensures Items(InRight(up, Black, s.left, s.item), Tree.Node(Red, s.right, v, t)) ==
      Items(InRight(up, Black, s, v), t)
  {
    ItemsUpRight(up, Black, s.left, s.item, Tree.Node(Red, s.right, v, t));
    ItemsUpRight(up, Black, s, v, t);
    SameOrder(Black, s.color, Black, Red, s.left, s.item, s.right, v, t);
  }

  /** A short hole has a sibling, and which side it is on can be told from the right link. */
  lemma ShortSibling(m: Cells, root: Node?, p: Trail, t: Shape)
    requires At(m, root, p, t) && OneShort(p, t) && !p.AtRoot?
    ensures p.item in m
    ensures if p.InLeft? then p.right.Node? && m[p.item].right == p.right.item && m[p.item].right != Top(t)
            else p.left.Node? && m[p.item].left == p.left.item && m[p.item].right == Top(t)
  {
    if p.InLeft? {
      ShortRedSiblingLeft(p.up, p.color, t, p.item, p.right);
      Members(p.up, p.right);
      Members(p.up, t);
    } else {
      ShortRedSiblingRight(p.up, p.color, p.left, p.item, t);
    }
  }

  // ---------------------------------------------------------------- taking a node out

  /** The only child, if any, takes the node's place. */
  lemma Splice(m: Cells, m': Cells, root: Node?, p: Trail, c: Color, l: Shape, n: Node, r: Shape, child: Shape,
      k: Color)
    requires At(m, root, p, Tree.Node(c, l, n, r))
    requires (l.Leaf? && child == r) || (r.Leaf? && child == l)
    requires Hung(m, m', p, Top(child)) && Agree(m, m', Only(Top(child)) + Only(Above(p)))
    requires child.Node? ==>
      child.item in m && child.item in m' && m'[child.item] == m[child.item].(parent := Above(p), color := k)
    ensures At(m', HangRoot(root, p, Top(child)), p, Recolored(child, k))
    ensures n !in Span(p, child)
  {
    var ch := Only(Top(child)) + Only(Above(p));
    DistinctPair(c, l, n, r);
    Members(p, child);
    Refill(m, m', root, p, n, Top(child), ch);
    assert Linked(m, child, n);
    if child.Node? {
      KeepTree(m, m', child.left, child.item, ch);
      KeepTree(m, m', child.right, child.item, ch);
    }
  }

  /** A node from outside takes the place of one in the tree, as `hev_rbtree_replace` does. */
  lemma Replace(m: Cells, m': Cells, root: Node?, p: Trail, c: Color, l: Shape, n: Node, r: Shape, s: Node)
    requires At(m, root, p, Tree.Node(c, l, n, r)) && s !in Span(p, Tree.Node(c, l, n, r))
    requires s in m' && m'[s] == Cell(Above(p), c, Top(l), Top(r)) && Hung(m, m', p, s)
    requires l.Node? ==> l.item in m && l.item in m' && m'[l.item] == m[l.item].(parent := s)
    requires r.Node? ==> r.item in m && r.item in m' && m'[r.item] == m[r.item].(parent := s)
    requires Agree(m, m', {s, n} + Only(Top(l)) + Only(Top(r)) + Only(Above(p)))
    ensures At(m', HangRoot(root, p, s), p, Tree.Node(c, l, s, r))
  {
    var ch := {s, n} + Only(Top(l)) + Only(Top(r)) + Only(Above(p));
    DistinctPair(c, l, n, r);
    DistinctPair(c, l, s, r);
    Members(p, l);
    Members(p, r);
    Refill(m, m', root, p, n, s, ch);
    Rehang(m, m', l, n, s, ch);
    Rehang(m, m', r, n, s, ch);
  }

  /** Looking at the tree from further down the path. */
  lemma {:induction false} RiseGraft(m: Cells, root: Node?, q: Trail, base: Trail, t: Shape)
    ensures At(m, root, Graft(q, base), t) <==> At(m, root, base, Plug(q, t))
    ensures Span(Graft(q, base), t) == Span(base, Plug(q, t))
    decreases q
  {
    match q
    case AtRoot =>
    case InLeft(up, c, v, r) =>
      UpLeft(m, root, Graft(up, base), c, t, v, r);
      RiseGraft(m, root, up, base, Tree.Node(c, t, v, r));
    case InRight(up, c, l, v) =>
      UpRight(m, root, Graft(up, base), c, l, v, t);
      RiseGraft(m, root, up, base, Tree.Node(c, l, v, t));
  }

  ghost function HangAt(m: Cells, p: Trail, now: Node?): Cells
    requires p.AtRoot? || p.item in m
  {
    match p
    case AtRoot => m
    case InLeft(_, _, v, _) => m[v := m[v].(left := now)]
    case InRight(_, _, _, v) => m[v := m[v].(right := now)]
  }

  /** The nodes that taking out `n` for its successor `s` touches: `parent` is above the
      successor, `child` and `left` are the two children of `n`. */
  ghost predicate Cast(m: Cells, p: Trail, n: Node, left: Node, child: Node, s: Node, parent: Node, child2: Node?) {
    && {n, left, child, s, parent} <= m.Keys && (child2 != null ==> child2 in m) && (p.AtRoot? || p.item in m)
    && n != left && n != child && left != child && n != s && left != s
    && left != parent && (parent == s <==> child == s)
    && Above(p) != n && Above(p) != left && Above(p) != child && Above(p) != s && Above(p) != parent
    && child2 != n && child2 != left && child2 != child && child2 != s && child2 != parent
    && (child2 != null ==> child2 != Above(p)) && parent != n
    && m[n] == Cell(Above(p), m[n].color, left, child) && m[s].right == child2
    && Hangs(m, p, n)
  }

  /** Case 3 only: the successor leaves its place below `parent` and adopts the right child. */
  ghost function LeaveStores(m: Cells, s: Node, parent: Node, child: Node, child2: Node?): Cells
    requires s in m && parent in m && child in m
  {
    var m1 := m[parent := m[parent].(left := child2)];
    var m2 := m1[s := m1[s].(right := child)];
    m2[child := m2[child].(parent := s)]
  }

  /** Both cases: the successor adopts the left child and hangs where the node hung. */
  ghost function EnterStores(m: Cells, p: Trail, s: Node, left: Node): Cells
    requires s in m && left in m && (p.AtRoot? || p.item in m)
  {
    var m1 := m[s := m[s].(left := left)];
    HangAt(m1[left := m1[left].(parent := s)], p, s)
  }

  ghost function TwoChildStores(m: Cells, p: Trail, n: Node, left: Node, child: Node, s: Node, parent: Node,
      child2: Node?): Cells
    requires {n, left, child, s, parent} <= m.Keys && (child2 != null ==> child2 in m) && (p.AtRoot? || p.item in m)
  {
    var m1 := if parent == s then m else LeaveStores(m, s, parent, child, child2);
    var m2 := PaintIf(EnterStores(m1, p, s, left), child2, parent, Black);
    m2[s := m2[s].(parent := m[n].parent, color := m[n].color)]
  }

  /** The same, after the successor was spliced out from below `above`. */
  ghost function SplicedOut(m: Cells, n: Node, s: Node, parent: Node, child2: Node?): Cells
    requires {n, parent} <= m.Keys && (child2 != null ==> child2 in m)
  {
    if parent == s then PaintIf(m[n := m[n].(right := child2)], child2, n, Black)
    else PaintIf(m[parent := m[parent].(left := child2)], child2, parent, Black)
  }

  /** What the stores add up to, relative to the tree with the successor spliced out. */
  lemma TwoChildCells(m: Cells, p: Trail, n: Node, left: Node, child: Node, s: Node, parent: Node, child2: Node?)
    requires Cast(m, p, n, left, child, s, parent, child2)
    ensures var m1 := SplicedOut(m, n, s, parent, child2);
      var m' := TwoChildStores(m, p, n, left, child, s, parent, child2);
      var right: Node? := if parent == s then child2 else child;
      && m'[s] == Cell(Above(p), m[n].color, left, right) && Hung(m1, m', p, s)
      && m'[left] == m1[left].(parent := s)
      && (right != null ==> right in m1 && right in m' && m'[right] == m1[right].(parent := s))
      && Agree(m1, m', {s, n, left} + Only(right) + Only(Above(p)))
  {
  }

  lemma {:induction false} GraftNodes(q: Trail, base: Trail, t: Shape)
    ensures TrailNodes(Graft(q, base)) == TrailNodes(q) + TrailNodes(base)
    ensures !q.AtRoot? ==> Plug(q, t).Node? && Plug(q, t).item in TrailNodes(q)
    decreases q
  {
    match q
    case AtRoot =>
    case InLeft(up, c, v, r) => GraftNodes(up, base, Tree.Node(c, t, v, r));
    case InRight(up, c, l, v) => GraftNodes(up, base, Tree.Node(c, l, v, t));
  }

  /** The successor of `n` was found at the end of the left path `q` in the right subtree. */
  ghost predicate Found(m: Cells, root: Node?, p: Trail, c: Color, l: Shape, n: Node, r: Shape, q: Trail, cs: Color,
      s: Node, c2: Shape) {
    && At(m, root, p, Tree.Node(c, l, n, r)) && l.Node? && AllLeft(q)
    && r == Plug(q, Tree.Node(cs, Leaf, s, c2))
  }

  lemma FoundCast(m: Cells, root: Node?, p: Trail, c: Color, l: Shape, n: Node, r: Shape, q: Trail, cs: Color, s: Node,
      c2: Shape)
    requires Found(m, root, p, c, l, n, r, q, cs, s, c2)
    ensures r.Node? && Cast(m, p, n, l.item, r.item, s, if q.AtRoot? then s else q.item, Top(c2)) && m[n].color == c &&
      m[s].color == cs
    ensures At(m, root, Graft(q, InRight(p, c, l, n)), Tree.Node(cs, Leaf, s, c2))
  {
    var base := InRight(p, c, l, n);
    var t := Tree.Node(cs, Leaf, s, c2);
    UpRight(m, root, p, c, l, n, r);
    RiseGraft(m, root, q, base, t);
    Rise(m, root, q, t);
    GraftNodes(q, base, t);
    assert Linked(m, c2, s) && Linked(m, l, n) && Linked(m, r, n);
    DistinctPair(c, l, n, r);
    DistinctPair(cs, Leaf, s, c2);
    Members(p, l);
    Members(p, r);
    Members(q, c2);
    AroundHangs(m, root, p, n);
  }

  /** After the stores the successor stands where the node stood, and the hole it left is
      filled by its right child. */
  lemma TwoChildDone(m: Cells, root: Node?, p: Trail, c: Color, l: Shape, n: Node, r: Shape, q: Trail, cs: Color,
      s: Node, c2: Shape)
    requires Found(m, root, p, c, l, n, r, q, cs, s, c2) && r.Node?
    requires Cast(m, p, n, l.item, r.item, s, if q.AtRoot? then s else q.item, Top(c2))
    ensures var m' := TwoChildStores(m, p, n, l.item, r.item, s, if q.AtRoot? then s else q.item, Top(c2));
      At(m', HangRoot(root, p, s), Graft(q, InRight(p, c, l, s)), Recolored(c2, Black))
    ensures n !in Span(Graft(q, InRight(p, c, l, s)), Recolored(c2, Black))
    ensures Span(Graft(q, InRight(p, c, l, s)), Recolored(c2, Black)) == Span(p, Tree.Node(c, l, n, r)) - {n}
  {
    hide OneShort;
    FoundCast(m, root, p, c, l, n, r, q, cs, s, c2);
    var parent := if q.AtRoot? then s else q.item;
    var m1 := SplicedOut(m, n, s, parent, Top(c2));
    var m' := TwoChildStores(m, p, n, l.item, r.item, s, parent, Top(c2));
    var d := Graft(q, InRight(p, c, l, n));
    var t := Recolored(c2, Black);
    Splice(m, m1, root, d, cs, Leaf, s, c2, c2, Black);
    RiseGraft(m1, root, q, InRight(p, c, l, n), t);
    UpRight(m1, root, p, c, l, n, Plug(q, t));
    GraftNodes(q, InRight(p, c, l, n), t);
    GraftNodes(q, InRight(p, c, l, n), Tree.Node(cs, Leaf, s, c2));
    PlugTop(q, Tree.Node(cs, Leaf, s, c2), t);
    TwoChildCells(m, p, n, l.item, r.item, s, parent, Top(c2));
    Replace(m1, m', root, p, c, l, n, Plug(q, t), s);
    UpRight(m', HangRoot(root, p, s), p, c, l, s, Plug(q, t));
    RiseGraft(m', HangRoot(root, p, s), q, InRight(p, c, l, s), t);
    TwoChildSpan(m, root, p, c, l, n, r, q, cs, s, c2);
  }

  lemma {:induction false} PlugTop(q: Trail, t: Shape, u: Shape)
    ensures if q.AtRoot? then Top(Plug(q, u)) == Top(u) else Top(Plug(q, u)) == Top(Plug(q, t))
    decreases q
  {
    match q
    case AtRoot =>
    case InLeft(up, c, v, r) => PlugTop(up, Tree.Node(c, t, v, r), Tree.Node(c, u, v, r));
    case InRight(up, c, l, v) => PlugTop(up, Tree.Node(c, l, v, t), Tree.Node(c, l, v, u));
  }

  lemma TwoChildSpan(m: Cells, root: Node?, p: Trail, c: Color, l: Shape, n: Node, r: Shape, q: Trail, cs: Color,
      s: Node, c2: Shape)
    requires Found(m, root, p, c, l, n, r, q, cs, s, c2)
    ensures Span(Graft(q, InRight(p, c, l, s)), Recolored(c2, Black)) == Span(p, Tree.Node(c, l, n, r)) - {n}
  {
    GraftNodes(q, InRight(p, c, l, s), c2);
    Rise(m, root, q, Tree.Node(cs, Leaf, s, c2));
    DistinctPair(c, l, n, r);
    DistinctPair(cs, Leaf, s, c2);
    DistinctPair(Black, if c2.Leaf? then Leaf else c2.left, s, Leaf);
  }

  /** After the successor left its place, the node still hangs where it hung. */
  lemma CastEnter(m: Cells, p: Trail, n: Node, left: Node, child: Node, s: Node, parent: Node, child2: Node?)
    requires Cast(m, p, n, left, child, s, parent, child2)
    ensures var m1 := if parent == s then m else LeaveStores(m, s, parent, child, child2);
      && m1[n].parent == Above(p) && m1[n].color == m[n].color && Hangs(m1, p, n) && m1[s].color == m[s].color
      && var m2 := EnterStores(m1, p, s, left);
      m2[n].parent == m[n].parent && m2[n].color == m[n].color && m2[s].color == m[s].color
  {
  }

  /** `_hev_rbtree_erase`, case 1: change_child, and the child takes parent and colour. */
  ghost function OneChildStores(m: Cells, p: Trail, n: Node, child: Node?): Cells
    requires n in m && (p.AtRoot? || p.item in m) && (child != null ==> child in m)
  {
    var m1 := HangAt(m, p, child);
    if child == null then m1 else m1[child := m1[child].(parent := m[n].parent, color := m[n].color)]
  }

  lemma OneChildReady(m: Cells, root: Node?, p: Trail, c: Color, l: Shape, n: Node, r: Shape, child: Shape)
    requires At(m, root, p, Tree.Node(c, l, n, r)) && (child == l || child == r)
    ensures n in m && (p.AtRoot? || p.item in m) &&
      (child.Node? ==> child.item in m && child.item != n && child.item != Above(p))
    ensures m[n] == Cell(Above(p), c, Top(l), Top(r)) && Hangs(m, p, n) && Above(p) != n
  {
    assert Linked(m, child, n);
    DistinctPair(c, l, n, r);
    Members(p, child);
    AroundHangs(m, root, p, n);
  }

  lemma OneChildDone(m: Cells, root: Node?, p: Trail, c: Color, l: Shape, n: Node, r: Shape, child: Shape)
    requires At(m, root, p, Tree.Node(c, l, n, r)) && (child.Node? ==> c == Black)
    requires (l.Leaf? && child == r) || (r.Leaf? && child == l)
    ensures n in m && (p.AtRoot? || p.item in m) && (child.Node? ==> child.item in m)
    ensures At(OneChildStores(m, p, n, Top(child)), HangRoot(root, p, Top(child)), p, Recolored(child, Black))
    ensures n !in Span(p, Recolored(child, Black)) &&
      Span(p, Recolored(child, Black)) == Span(p, Tree.Node(c, l, n, r)) - {n}
  {
    OneChildReady(m, root, p, c, l, n, r, child);
    Splice(m, OneChildStores(m, p, n, Top(child)), root, p, c, l, n, r, child, Black);
    if child.Node? {
      DistinctPair(Black, child.left, child.item, child.right);
    }
  }

  lemma {:induction false} NodesInOrder(t: Shape, n: Node)
    ensures n in Nodes(t) <==> n in InOrder(t)
  {
    if t.Node? {
      NodesInOrder(t.left, n);
      NodesInOrder(t.right, n);
    }
  }

  lemma {:induction false} NodesAreItems(t: Shape)
    ensures Nodes(t) == set n | n in InOrder(t)
  {
    if t.Node? {
      NodesAreItems(t.left);
      NodesAreItems(t.right);
    }
  }

  /** Trees that list the same items hold the same nodes. */
  lemma SameItemsSameNodes(w: Shape, p: Trail, t: Shape)
    requires InOrder(w) == Items(p, t)
    ensures Nodes(w) == Span(p, t)
  {
    Rise(map[], null, p, t);
    PlugInOrder(p, t);
    assert InOrder(w) == InOrder(Plug(p, t));
    NodesAreItems(w);
    NodesAreItems(Plug(p, t));
  }

  /** Where a node stands in the tree, and in the order. */
  lemma Stand(m: Cells, root: Node?, w: Shape, n: Node) returns (p: Trail, t: Shape)
    requires At(m, root, AtRoot, w) && RedBlack(w) && n in Nodes(w)
    ensures t.Node? && t.item == n && At(m, root, p, t) && Settled(p, t) && Plug(p, t) == w && Span(p, t) == Nodes(w)
    ensures InOrder(w) == (Before(p) + InOrder(t.left)) + [n] + (InOrder(t.right) + After(p))
  {
    NodesInOrder(w, n);
    p, t := Locate(AtRoot, w, n);
    PlugFits(p, t);
    Rise(m, root, p, t);
    PlugInOrder(p, t);
  }

  /** A node stands in the order only once. */
  lemma StandsOnce(m: Cells, root: Node?, p: Trail, t: Shape)
    requires At(m, root, p, t) && t.Node?
    ensures t.item !in Before(p) + InOrder(t.left) && t.item !in InOrder(t.right) + After(p)
  {
    NodesInOrder(t.left, t.item);
    NodesInOrder(t.right, t.item);
    TrailItems(p, t.item);
    DistinctPair(t.color, t.left, t.item, t.right);
  }

  /** What is left of the order when the node is taken out of its place. */
  lemma StandsNoMore(m: Cells, root: Node?, p: Trail, t: Shape, w: Shape, w': Shape)
    requires At(m, root, p, t) && t.Node?
    requires InOrder(w) == (Before(p) + InOrder(t.left)) + [t.item] + (InOrder(t.right) + After(p))
    requires InOrder(w') == Before(p) + InOrder(t.left) + InOrder(t.right) + After(p)
    ensures InOrder(w') == Without(InOrder(w), t.item)
  {
    hide Before, After, InOrder, At, Without;
    StandsOnce(m, root, p, t);
    WithoutMiddle(Before(p) + InOrder(t.left), t.item, InOrder(t.right) + After(p));
    assert InOrder(w') == (Before(p) + InOrder(t.left)) + (InOrder(t.right) + After(p));
  }

  lemma {:induction false} TrailItems(p: Trail, n: Node)
    ensures n in TrailNodes(p) <==> n in Before(p) || n in After(p)
    decreases p
  {
    match p
    case AtRoot =>
    case InLeft(up, c, v, r) => TrailItems(up, n); NodesInOrder(r, n);
    case InRight(up, c, l, v) => TrailItems(up, n); NodesInOrder(l, n);
  }

  /** The slot a link pointer refers to. */
  datatype Slot = TopSlot | LeftSlot(of: Node) | RightSlot(of: Node)

  ghost function SlotOf(p: Trail): Slot {
    match p
    case AtRoot => TopSlot
    case InLeft(_, _, v, _) => LeftSlot(v)
    case InRight(_, _, _, v) => RightSlot(v)
  }

  /** A new node is linked into an empty slot. */
  lemma LinkDone(m: Cells, m': Cells, root: Node?, p: Trail, n: Node)
    requires At(m, root, p, Leaf) && n !in m && n !in TrailNodes(p)
    requires p.AtRoot? || p.item in m
    requires m' == HangAt(m[n := Cell(Above(p), Red, null, null)], p, n)
    ensures At(m', HangRoot(root, p, n), p, Tree.Node(Red, Leaf, n, Leaf))
  {
    Refill(m, m', root, p, null, n, {n} + Only(Above(p)));
  }

  /** A leaf slot of a red-black tree takes a red node, up to the rule that a red node has
      no red parent. */
  lemma LeafSlot(p: Trail, n: Node)
    requires RedBlack(Plug(p, Leaf))
    ensures RedBelow(p, Tree.Node(Red, Leaf, n, Leaf))
  {
    PlugFits(p, Leaf);
  }

  lemma {:induction false} ItemsOfNew(p: Trail, n: Node)
    ensures Items(p, Tree.Node(Red, Leaf, n, Leaf)) == Before(p) + [n] + After(p)
    ensures Span(p, Tree.Node(Red, Leaf, n, Leaf)) == TrailNodes(p) + {n}
  {
    var t: Shape := Tree.Node(Red, Leaf, n, Leaf);
    assert InOrder(t) == [] + [n] + [] == [n];
    assert Nodes(t) == {} + {n} + {} == {n};
  }

  /** Where the i-th node of the order stands. */
  lemma StandAt(m: Cells, root: Node?, w: Shape, i: nat) returns (p: Trail, t: Shape)
    requires At(m, root, AtRoot, w) && RedBlack(w) && i < |InOrder(w)|
    ensures t.Node? && t.item == InOrder(w)[i] && At(m, root, p, t) && t.item in m && Above(p) != t.item
    ensures m[t.item] == Cell(Above(p), t.color, Top(t.left), Top(t.right))
    ensures Linked(m, t.left, t.item) && Linked(m, t.right, t.item)
    ensures i == |Before(p)| + |InOrder(t.left)|
    ensures InOrder(w) == (Before(p) + InOrder(t.left)) + [t.item] + (InOrder(t.right) + After(p))
    ensures t.right.Leaf? ==> InOrder(w)[i + 1..] == After(p)
    ensures t.left.Leaf? ==> InOrder(w)[..i] == Before(p)
  {
    NodesInOrder(w, InOrder(w)[i]);
    p, t := Stand(m, root, w, InOrder(w)[i]);
    StandsOnce(m, root, p, t);
    SplitOnce(Before(p) + InOrder(t.left), t.item, InOrder(t.right) + After(p), InOrder(w), i);
    AroundHangs(m, root, p, t.item);
  }

  lemma SplitOnce(a: seq<Node>, x: Node, b: seq<Node>, s: seq<Node>, i: nat)
    requires s == a + [x] + b && x !in a && x !in b && i < |s| && s[i] == x
    ensures i == |a| && s[..i] == a && s[i + 1..] == b
  {
    assert s[..|a|] == a && s[|a| + 1..] == b;
  }

  /** The node above, seen from below. */
  lemma AtParent(m: Cells, root: Node?, p: Trail, t: Shape)
    requires At(m, root, p, t) && !p.AtRoot? && t.Node?
    ensures At(m, root, p.up, Lift(p, t)) && p.item in m && m[p.item].parent == Above(p.up)
    ensures m[p.item].right == t.item <==> p.InRight?
    ensures m[p.item].left == t.item <==> p.InLeft?
    ensures After(p) == if p.InLeft? then [p.item] + (InOrder(p.right) + After(p.up)) else After(p.up)
    ensures Before(p) == if p.InRight? then (Before(p.up) + InOrder(p.left)) + [p.item] else Before(p.up)
  {
    hide At, After, Before, InOrder;
    ParentAt(m, root, p, t);
    ParentOrder(p);
  }

  lemma ParentOrder(p: Trail)
    requires !p.AtRoot?
    ensures After(p) == if p.InLeft? then [p.item] + (InOrder(p.right) + After(p.up)) else After(p.up)
    ensures Before(p) == if p.InRight? then (Before(p.up) + InOrder(p.left)) + [p.item] else Before(p.up)
  {
    hide InOrder;
  }

  lemma ParentAt(m: Cells, root: Node?, p: Trail, t: Shape)
    requires At(m, root, p, t) && !p.AtRoot? && t.Node?
    ensures At(m, root, p.up, Lift(p, t)) && p.item in m && m[p.item].parent == Above(p.up)
    ensures m[p.item].right == t.item <==> p.InRight?
    ensures m[p.item].left == t.item <==> p.InLeft?
  {
    hide InOrder, Good;
    if p.InLeft? {
      UpLeft(m, root, p.up, p.color, t, p.item, p.right);
      Members(p.up, p.right);
    } else {
      UpRight(m, root, p.up, p.color, p.left, p.item, t);
      Members(p.up, p.left);
    }
  }

  lemma ReplaceReady(m: Cells, root: Node?, p: Trail, t: Shape)
    requires At(m, root, p, t) && t.Node?
    ensures t.item in m && (p.AtRoot? || p.item in m) && m[t.item] == Cell(Above(p), t.color, Top(t.left), Top(t.right))
    ensures Hangs(m, p, t.item) && Above(p) != t.item
    ensures t.left.Node? ==> t.left.item in m && t.left.item != t.item && t.left.item != Above(p)
    ensures t.right.Node? ==> t.right.item in m && t.right.item != t.item && t.right.item != Above(p)
    ensures t.left.Node? && t.right.Node? ==> t.left.item != t.right.item
  {
    OneChildReady(m, root, p, t.color, t.left, t.item, t.right, t.left);
    OneChildReady(m, root, p, t.color, t.left, t.item, t.right, t.right);
    DistinctPair(t.color, t.left, t.item, t.right);
    Members(p, t.left);
    Members(p, t.right);
  }

  ghost function SetParentIf(m: Cells, n: Node?, parent: Node): Cells
    requires n == null || n in m
  {
    if n == null then m else m[n := m[n].(parent := parent)]
  }

  /** The stores of `hev_rbtree_replace`. */
  ghost function ReplaceStores(m: Cells, p: Trail, victim: Node, incoming: Node): Cells
    requires victim in m && (p.AtRoot? || p.item in m)
    requires (m[victim].left == null || m[victim].left in m) && (m[victim].right == null || m[victim].right in m)
  {
    HangAt(SetParentIf(SetParentIf(m[incoming := m[victim]], m[victim].left, incoming), m[victim].right, incoming), p,
      incoming)
  }

  lemma ReplaceStored(m: Cells, root: Node?, p: Trail, t: Shape, incoming: Node)
    requires At(m, root, p, t) && t.Node? && incoming !in m && m.Keys == Span(p, t)
    ensures t.item in m && (p.AtRoot? || p.item in m)
    ensures (m[t.item].left == null || m[t.item].left in m) && (m[t.item].right == null || m[t.item].right in m)
    ensures ReplaceStores(m, p, t.item, incoming).Keys == m.Keys + {incoming}
    ensures At(ReplaceStores(m, p, t.item, incoming), HangRoot(root, p, incoming), p, t.(item := incoming))
  {
    ReplaceReady(m, root, p, t);
    Replace(m, ReplaceStores(m, p, t.item, incoming), root, p, t.color, t.left, t.item, t.right, incoming);
  }

  lemma ReplaceDone(m: Cells, m': Cells, root: Node?, root': Node?, p: Trail, t: Shape, incoming: Node)
    requires At(m, root, p, t) && t.Node? && Settled(p, t) && At(m', root', p, t.(item := incoming))
    ensures var w := Plug(p, t.(item := incoming));
      At(m', root', AtRoot, w) && RedBlack(w) && Nodes(w) == Nodes(Plug(p, t)) - {t.item} + {incoming}
  {
    var t' := t.(item := incoming);
    Rise(m, root, p, t);
    Rise(m', root', p, t');
    FitsPlug(p, t');
    DistinctPair(t.color, t.left, t.item, t.right);
    DistinctPair(t.color, t.left, incoming, t.right);
  }

  /** Replacing a node renames it in the order. */
  lemma ReplaceOrder(m: Cells, root: Node?, p: Trail, t: Shape, incoming: Node)
    requires At(m, root, p, t) && t.Node?
    ensures Renamed(InOrder(Plug(p, t)), InOrder(Plug(p, t.(item := incoming))), t.item, incoming)
  {
    PlugInOrder(p, t);
    PlugInOrder(p, t.(item := incoming));
    StandsOnce(m, root, p, t);
    RenameOnce(Before(p) + InOrder(t.left), t.item, incoming, InOrder(t.right) + After(p));
    Middle(Before(p), InOrder(t.left), t.item, InOrder(t.right), After(p));
    Middle(Before(p), InOrder(t.left), incoming, InOrder(t.right), After(p));
  }

  ghost predicate Renamed(a: seq<Node>, b: seq<Node>, x: Node, y: Node) {
    |b| == |a| && forall i :: 0 <= i < |b| ==> b[i] == if a[i] == x then y else a[i]
  }

  lemma RenameOnce(a: seq<Node>, x: Node, y: Node, b: seq<Node>)
    requires x !in a && x !in b
    ensures Renamed(a + [x] + b, a + [y] + b, x, y)
  {
  }

  lemma Middle(b: seq<Node>, l: seq<Node>, x: Node, r: seq<Node>, a: seq<Node>)
    ensures b + (l + [x] + r) + a == (b + l) + [x] + (r + a)
  {
  }
}
