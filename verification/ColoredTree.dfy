/**
 The mathematics of the red-black tree: coloured binary trees, the path from a
 hole back up to the root, and what the red-black rules ask of each.

 The heap code in RbTree.dfy never sees these values at run time. They are the
 ghost shapes that its loop invariants speak about.
 */
module ColoredTree {

  datatype Color = Red | Black

  datatype Tree<+V> =
    | Leaf
    | Node(color: Color, left: Tree<V>, item: V, right: Tree<V>)

  /** What is left of a tree when one subtree is cut out: the frames from the hole
      up to the root. In `InLeft` the hole is the left child of `item`. */
  datatype Path<+V> =
    | AtRoot
    | InLeft(up: Path<V>, color: Color, item: V, right: Tree<V>)
    | InRight(up: Path<V>, color: Color, left: Tree<V>, item: V)

  function RootColor<V>(t: Tree<V>): Color {
    if t.Leaf? then Black else t.color
  }

  function InOrder<V>(t: Tree<V>): seq<V> {
    match t
    case Leaf => []
    case Node(_, l, v, r) => InOrder(l) + [v] + InOrder(r)
  }

  function Height<V>(t: Tree<V>): nat {
    match t
    case Leaf => 0
    case Node(_, l, _, r) => 1 + if Height(l) <= Height(r) then Height(r) else Height(l)
  }

  /** Puts a subtree back into the hole. */
  function Plug<V>(p: Path<V>, t: Tree<V>): Tree<V>
    decreases p
  {
    match p
    case AtRoot => t
    case InLeft(up, c, v, r) => Plug(up, Node(c, t, v, r))
    case InRight(up, c, l, v) => Plug(up, Node(c, l, v, t))
  }

  /** The items of the plugged tree that come before the hole, in order. */
  function Before<V>(p: Path<V>): seq<V> {
    match p
    case AtRoot => []
    case InLeft(up, _, _, _) => Before(up)
    case InRight(up, _, l, v) => Before(up) + InOrder(l) + [v]
  }

  /** The items of the plugged tree that come after the hole, in order. */
  function After<V>(p: Path<V>): seq<V> {
    match p
    case AtRoot => []
    case InLeft(up, _, v, r) => [v] + InOrder(r) + After(up)
    case InRight(up, _, _, _) => After(up)
  }

  function Depth<V>(p: Path<V>): nat {
    match p
    case AtRoot => 0
    case InLeft(up, _, _, _) => 1 + Depth(up)
    case InRight(up, _, _, _) => 1 + Depth(up)
  }

  lemma {:induction false} PlugInOrder<V>(p: Path<V>, t: Tree<V>)
    ensures InOrder(Plug(p, t)) == Before(p) + InOrder(t) + After(p)
    decreases p
  {
    match p
    case AtRoot =>
    case InLeft(up, c, v, r) =>
      PlugInOrder(up, Node(c, t, v, r));
    case InRight(up, c, l, v) =>
      PlugInOrder(up, Node(c, l, v, t));
  }

  lemma {:induction false} PlugHeight<V>(p: Path<V>, t: Tree<V>)
    ensures Depth(p) + Height(t) <= Height(Plug(p, t))
    decreases p
  {
    match p
    case AtRoot =>
    case InLeft(up, c, v, r) => PlugHeight(up, Node(c, t, v, r));
    case InRight(up, c, l, v) => PlugHeight(up, Node(c, l, v, t));
  }

  // ---------------------------------------------------------------- red-black rules

  /** Black nodes on the leftmost path; on a balanced tree, on every path. */
  function BlackHeight<V>(t: Tree<V>): nat {
    match t
    case Leaf => 0
    case Node(c, l, _, _) => BlackHeight(l) + if c == Black then 1 else 0
  }

  /** Rules 4 and 5: no red node has a red child, and all paths from a node down to
      its leaves hold equally many black nodes. */
  predicate Good<V>(t: Tree<V>) {
    match t
    case Leaf => true
    case Node(c, l, _, r) =>
      && Good(l) && Good(r)
      && BlackHeight(l) == BlackHeight(r)
      && (c == Red ==> RootColor(l) == Black && RootColor(r) == Black)
  }

  /** A red-black tree: good, with a black root. */
  predicate RedBlack<V>(t: Tree<V>) {
    Good(t) && RootColor(t) == Black
  }

  /** Any good tree of black height `h` whose root is black, or of colour `c`, makes a
      red-black tree of the hole. */
  predicate Fits<V>(p: Path<V>, h: nat, c: Color) {
    match p
    case AtRoot => c == Black
    case InLeft(up, pc, _, r) =>
      && Good(r) && BlackHeight(r) == h
      && (pc == Red ==> c == Black && RootColor(r) == Black)
      && Fits(up, if pc == Black then h + 1 else h, pc)
    case InRight(up, pc, l, _) =>
      && Good(l) && BlackHeight(l) == h
      && (pc == Red ==> c == Black && RootColor(l) == Black)
      && Fits(up, if pc == Black then h + 1 else h, pc)
  }

  /** A path that tolerates a red root tolerates a black one. */
  lemma {:induction false} FitsBlack<V>(p: Path<V>, h: nat, c: Color)
    requires Fits(p, h, c)
    ensures Fits(p, h, Black)
  {
  }

  lemma {:induction false} FitsPlug<V>(p: Path<V>, t: Tree<V>)
    requires Good(t) && Fits(p, BlackHeight(t), RootColor(t))
    ensures RedBlack(Plug(p, t))
    decreases p
  {
    match p
    case AtRoot =>
    case InLeft(up, c, v, r) => FitsPlug(up, Node(c, t, v, r));
    case InRight(up, c, l, v) => FitsPlug(up, Node(c, l, v, t));
  }

  /** The other direction: cutting a subtree out of a red-black tree leaves a path that
      fits the subtree, so the two notions agree exactly. */
  lemma {:induction false} PlugFits<V>(p: Path<V>, t: Tree<V>)
    requires RedBlack(Plug(p, t))
    ensures Good(t) && Fits(p, BlackHeight(t), RootColor(t))
    decreases p
  {
    match p
    case AtRoot =>
    case InLeft(up, c, v, r) => PlugFits(up, Node(c, t, v, r));
    case InRight(up, c, l, v) => PlugFits(up, Node(c, l, v, t));
  }

  // ---------------------------------------------------------------- height bound

  function Pow2(n: nat): nat {
    if n == 0 then 1 else 2 * Pow2(n - 1)
  }

  lemma {:induction false} Pow2Add(m: nat, n: nat)
    ensures Pow2(m + n) == Pow2(m) * Pow2(n)
  {
    if m > 0 {
      Pow2Add(m - 1, n);
    }
  }

  lemma {:induction false} Pow2Mono(m: nat, n: nat)
    requires m <= n
    ensures 1 <= Pow2(m) <= Pow2(n)
  {
    if m > 0 {
      Pow2Mono(m - 1, n - 1);
    } else if n > 0 {
      Pow2Mono(0, n - 1);
    }
  }

  lemma {:induction false} HeightVsBlackHeight<V>(t: Tree<V>)
    requires Good(t)
    ensures Height(t) <= 2 * BlackHeight(t) + if RootColor(t) == Red then 1 else 0
  {
    if t.Node? {
      HeightVsBlackHeight(t.left);
      HeightVsBlackHeight(t.right);
    }
  }

  lemma {:induction false} SizeVsBlackHeight<V>(t: Tree<V>)
    requires Good(t)
    ensures Pow2(BlackHeight(t)) <= |InOrder(t)| + 1
  {
    if t.Node? {
      SizeVsBlackHeight(t.left);
      SizeVsBlackHeight(t.right);
    }
  }

  lemma SquareMono(a: nat, b: nat)
    requires a <= b
    ensures a * a <= b * b
  {
    assert a * a <= a * b <= b * b;
  }

  /** With n items no path from the root is longer than 2*log2(n+1): stated without
      logarithms, 2^height <= (n+1)^2. */
  lemma {:induction false} HeightBound<V>(t: Tree<V>)
    requires RedBlack(t)
    ensures Pow2(Height(t)) <= (|InOrder(t)| + 1) * (|InOrder(t)| + 1)
  {
    var b, n := BlackHeight(t), |InOrder(t)|;
    HeightVsBlackHeight(t);
    SizeVsBlackHeight(t);
    Pow2Mono(Height(t), b + b);
    Pow2Add(b, b);
    SquareMono(Pow2(b), n + 1);
  }

  // ---------------------------------------------------------------- locating an item

  /** Every item sits in the hole of some path. */
  lemma {:induction false} Locate<V>(up: Path<V>, t: Tree<V>, v: V) returns (p: Path<V>, s: Tree<V>)
    requires v in InOrder(t)
    ensures s.Node? && s.item == v
    ensures Plug(p, s) == Plug(up, t)
    decreases t
  {
    if t.item == v {
      p, s := up, t;
    } else if v in InOrder(t.left) {
      p, s := Locate(InLeft(up, t.color, t.item, t.right), t.left, v);
    } else {
      p, s := Locate(InRight(up, t.color, t.left, t.item), t.right, v);
    }
  }

  // ---------------------------------------------------------------- insertion repair

  function Items<V>(p: Path<V>, t: Tree<V>): seq<V> {
    Before(p) + InOrder(t) + After(p)
  }

  /** The invariant of the insertion loop: `t` is good with a red top, and that top is the
      only place where the whole may break a rule. */
  predicate RedBelow<V>(p: Path<V>, t: Tree<V>) {
    t.Node? && t.color == Red && Good(t) && Fits(p, BlackHeight(t), Black)
  }

  predicate Settled<V>(p: Path<V>, t: Tree<V>) {
    Good(t) && Fits(p, BlackHeight(t), RootColor(t))
  }

  /** The loop stops at a black parent, or by blackening the root. */
  lemma RedBelowStops<V>(p: Path<V>, t: Tree<V>)
    requires RedBelow(p, t)
    ensures !p.AtRoot? && p.color == Black ==> Settled(p, t)
    ensures p.AtRoot? ==> Settled(p, t.(color := Black)) && Items(p, t.(color := Black)) == Items(p, t)
  {
  }

  /** The subtree of the hole's parent. */
  function Lift<V>(p: Path<V>, t: Tree<V>): (q: Tree<V>)
    requires !p.AtRoot?
    ensures q.Node? && q.item == p.item && q.color == p.color
  {
    match p
    case InLeft(_, c, v, r) => Node(c, t, v, r)
    case InRight(_, c, l, v) => Node(c, l, v, t)
  }

  /** Case 1: with a red uncle the colours flip and the trouble moves two levels up. */
  lemma FlipLeft<V>(p: Path<V>, t: Tree<V>, up: Path<V>, g: V, u: Tree<V>)
    requires RedBelow(p, t) && !p.AtRoot? && p.color == Red && p.up == InLeft(up, Black, g, u) && u.Node? &&
      u.color == Red
    ensures var q := Lift(p, t);
      q.Node? && var s := Node(Red, q.(color := Black), g, u.(color := Black));
      RedBelow(up, s) && InOrder(s) == InOrder(Node(Black, q, g, u))
  {
    assert Fits(p.up, BlackHeight(t), Red);
  }

  lemma FlipRight<V>(p: Path<V>, t: Tree<V>, up: Path<V>, u: Tree<V>, g: V)
    requires RedBelow(p, t) && !p.AtRoot? && p.color == Red && p.up == InRight(up, Black, u, g) && u.Node? &&
      u.color == Red
    ensures var q := Lift(p, t);
      q.Node? && var s := Node(Red, u.(color := Black), g, q.(color := Black));
      RedBelow(up, s) && InOrder(s) == InOrder(Node(Black, u, g, q))
  {
    assert Fits(p.up, BlackHeight(t), Red);
  }

  lemma ItemsUpLeft<V>(up: Path<V>, c: Color, t: Tree<V>, v: V, r: Tree<V>)
    ensures Items(InLeft(up, c, v, r), t) == Items(up, Node(c, t, v, r))
  {
  }

  lemma ItemsUpRight<V>(up: Path<V>, c: Color, l: Tree<V>, v: V, t: Tree<V>)
    ensures Items(InRight(up, c, l, v), t) == Items(up, Node(c, l, v, t))
  {
  }

  /** Both rotations keep the order: (a x b) y e and a x (b y e) list the same items. */
  lemma SameOrder<V>(c: Color, d: Color, e: Color, f: Color, l: Tree<V>, x: V, m: Tree<V>, y: V, r: Tree<V>)
    ensures InOrder(Node(c, Node(d, l, x, m), y, r)) == InOrder(Node(e, l, x, Node(f, m, y, r)))
  {
  }

  /** Cases 2 and 3: the double rotation settles the tree. */
  lemma SettleInnerLeft<V>(up: Path<V>, l: Tree<V>, p: V, a: Tree<V>, n: V, b: Tree<V>, g: V, u: Tree<V>)
    requires RedBelow(InRight(InLeft(up, Black, g, u), Red, l, p), Node(Red, a, n, b)) && RootColor(u) == Black
    ensures var t := Node(Black, Node(Red, l, p, a), n, Node(Red, b, g, u));
      Settled(up, t) && InOrder(t) == InOrder(Node(Black, Node(Red, l, p, Node(Red, a, n, b)), g, u))
  {
    assert Fits(InLeft(up, Black, g, u), BlackHeight(a), Red);
    SameOrder(Red, Red, Red, Red, l, p, a, n, b);
    SameOrder(Black, Red, Black, Red, Node(Red, l, p, a), n, b, g, u);
  }

  lemma SettleInnerRight<V>(up: Path<V>, u: Tree<V>, g: V, a: Tree<V>, n: V, b: Tree<V>, p: V, r: Tree<V>)
    requires RedBelow(InLeft(InRight(up, Black, u, g), Red, p, r), Node(Red, a, n, b)) && RootColor(u) == Black
    ensures var t := Node(Black, Node(Red, u, g, a), n, Node(Red, b, p, r));
      Settled(up, t) && InOrder(t) == InOrder(Node(Black, u, g, Node(Red, Node(Red, a, n, b), p, r)))
  {
    assert Fits(InRight(up, Black, u, g), BlackHeight(a), Red);
    SameOrder(Red, Red, Red, Red, a, n, b, p, r);
    SameOrder(Black, Red, Black, Red, u, g, a, n, Node(Red, b, p, r));
  }

  /** Case 3 alone. */
  lemma SettleOuterLeft<V>(up: Path<V>, t: Tree<V>, p: V, r: Tree<V>, g: V, u: Tree<V>)
    requires RedBelow(InLeft(InLeft(up, Black, g, u), Red, p, r), t) && RootColor(u) == Black
    ensures var s := Node(Black, t, p, Node(Red, r, g, u));
      Settled(up, s) && InOrder(s) == InOrder(Node(Black, Node(Red, t, p, r), g, u))
  {
    assert Fits(InLeft(up, Black, g, u), BlackHeight(t), Red);
    SameOrder(Black, Red, Black, Red, t, p, r, g, u);
  }

  lemma SettleOuterRight<V>(up: Path<V>, u: Tree<V>, g: V, l: Tree<V>, p: V, t: Tree<V>)
    requires RedBelow(InRight(InRight(up, Black, u, g), Red, l, p), t) && RootColor(u) == Black
    ensures var s := Node(Black, Node(Red, u, g, l), p, t);
      Settled(up, s) && InOrder(s) == InOrder(Node(Black, u, g, Node(Red, l, p, t)))
  {
    assert Fits(InRight(up, Black, u, g), BlackHeight(t), Red);
    SameOrder(Black, Red, Black, Red, u, g, l, p, t);
  }

  // ---------------------------------------------------------------- erasure repair

  /** The invariant of the erasure loop: all leaf paths through the hole have one black
      node less than the others, and nothing else is wrong. */
  predicate OneShort<V>(p: Path<V>, t: Tree<V>) {
    Good(t) && RootColor(t) == Black && Fits(p, BlackHeight(t) + 1, Black)
  }

  /** At the root nothing is left to compare with. */
  lemma OneShortAtRoot<V>(t: Tree<V>)
    requires OneShort(AtRoot, t)
    ensures Settled(AtRoot, t)
  {
  }

  /** Case 1: a red sibling is rotated up; the hole gets a black sibling. */
  lemma ShortRedSiblingLeft<V>(up: Path<V>, c: Color, t: Tree<V>, v: V, s: Tree<V>)
    requires OneShort(InLeft(up, c, v, s), t)
    ensures s.Node?
    ensures s.color == Red ==> c == Black && s.left.Node? && s.left.color == Black
    ensures s.color == Red ==> OneShort(InLeft(InLeft(up, Black, s.item, s.right), Red, v, s.left), t)
  {
    if s.color == Red {
      assert Fits(InLeft(up, Black, s.item, s.right), BlackHeight(t) + 1, Red);
    }
  }

  lemma ShortRedSiblingRight<V>(up: Path<V>, c: Color, s: Tree<V>, v: V, t: Tree<V>)
    requires OneShort(InRight(up, c, s, v), t)
    ensures s.Node?
    ensures s.color == Red ==> c == Black && s.right.Node? && s.right.color == Black
    ensures s.color == Red ==> OneShort(InRight(InRight(up, Black, s.left, s.item), Red, s.right, v), t)
  {
    if s.color == Red {
      assert Fits(InRight(up, Black, s.left, s.item), BlackHeight(t) + 1, Red);
    }
  }

  /** Case 2: a black sibling with black children turns red. A red parent absorbs the
      missing black node, a black one passes the lack up. */
  lemma ShortFlipLeft<V>(up: Path<V>, c: Color, t: Tree<V>, v: V, s: Tree<V>)
    requires OneShort(InLeft(up, c, v, s), t)
    requires s.Node? && s.color == Black && RootColor(s.left) == Black && RootColor(s.right) == Black
    ensures var u := Node(Black, t, v, s.(color := Red));
      (if c == Red then Settled(up, u) else OneShort(up, u)) && InOrder(u) == InOrder(Node(c, t, v, s))
  {
    FitsBlack(up, if c == Black then BlackHeight(t) + 2 else BlackHeight(t) + 1, c);
  }

  lemma ShortFlipRight<V>(up: Path<V>, c: Color, s: Tree<V>, v: V, t: Tree<V>)
    requires OneShort(InRight(up, c, s, v), t)
    requires s.Node? && s.color == Black && RootColor(s.left) == Black && RootColor(s.right) == Black
    ensures var u := Node(Black, s.(color := Red), v, t);
      (if c == Red then Settled(up, u) else OneShort(up, u)) && InOrder(u) == InOrder(Node(c, s, v, t))
  {
    FitsBlack(up, if c == Black then BlackHeight(t) + 2 else BlackHeight(t) + 1, c);
  }

  /** Case 4: the far nephew is red; one rotation settles the tree. */
  lemma ShortRotateLeft<V>(up: Path<V>, c: Color, t: Tree<V>, v: V, s: Tree<V>)
    requires OneShort(InLeft(up, c, v, s), t) && s.Node? && s.color == Black && s.right.Node? && s.right.color == Red
    ensures var u := Node(c, Node(Black, t, v, s.left), s.item, s.right.(color := Black));
      Settled(up, u) && InOrder(u) == InOrder(Node(c, t, v, s))
  {
    assert Good(s.right) && Good(s.right.(color := Black));
    SameOrder(c, Black, c, Black, t, v, s.left, s.item, s.right);
  }

  lemma ShortRotateRight<V>(up: Path<V>, c: Color, s: Tree<V>, v: V, t: Tree<V>)
    requires OneShort(InRight(up, c, s, v), t) && s.Node? && s.color == Black && s.left.Node? && s.left.color == Red
    ensures var u := Node(c, s.left.(color := Black), s.item, Node(Black, s.right, v, t));
      Settled(up, u) && InOrder(u) == InOrder(Node(c, s, v, t))
  {
    assert Good(s.left) && Good(s.left.(color := Black));
    SameOrder(c, Black, c, Black, s.left, s.item, s.right, v, t);
  }

  /** Cases 3 and 4: the near nephew is red; the double rotation settles the tree. */
  lemma ShortInnerLeft<V>(up: Path<V>, c: Color, t: Tree<V>, v: V, s: Tree<V>)
    requires OneShort(InLeft(up, c, v, s), t) && s.Node? && s.color == Black
    requires s.left.Node? && s.left.color == Red && RootColor(s.right) == Black
    ensures RootColor(s.left.left) == Black && RootColor(s.left.right) == Black
    ensures var n := s.left;
      var u := Node(c, Node(Black, t, v, n.left), n.item, Node(Black, n.right, s.item, s.right));
      Settled(up, u) && InOrder(u) == InOrder(Node(c, t, v, s))
  {
    var n := s.left;
    assert Good(n) && Good(n.left) && Good(n.right);
    SameOrder(Black, Red, Red, Black, n.left, n.item, n.right, s.item, s.right);
    SameOrder(c, Black, c, Red, t, v, n.left, n.item, Node(Black, n.right, s.item, s.right));
  }

  lemma ShortInnerRight<V>(up: Path<V>, c: Color, s: Tree<V>, v: V, t: Tree<V>)
    requires OneShort(InRight(up, c, s, v), t) && s.Node? && s.color == Black
    requires s.right.Node? && s.right.color == Red && RootColor(s.left) == Black
    ensures RootColor(s.right.left) == Black && RootColor(s.right.right) == Black
    ensures var n := s.right;
      var u := Node(c, Node(Black, s.left, s.item, n.left), n.item, Node(Black, n.right, v, t));
      Settled(up, u) && InOrder(u) == InOrder(Node(c, s, v, t))
  {
    var n := s.right;
    assert Good(n) && Good(n.left) && Good(n.right);
    SameOrder(Red, Black, Black, Red, s.left, s.item, n.left, n.item, n.right);
    SameOrder(c, Red, c, Black, Node(Black, s.left, s.item, n.left), n.item, n.right, v, t);
  }

  // ---------------------------------------------------------------- taking a node out

  /** The path `q` continued up along `base`. */
  function Graft<V>(q: Path<V>, base: Path<V>): Path<V> {
    match q
    case AtRoot => base
    case InLeft(up, c, v, r) => InLeft(Graft(up, base), c, v, r)
    case InRight(up, c, l, v) => InRight(Graft(up, base), c, l, v)
  }

  lemma {:induction false} ItemsGraft<V>(q: Path<V>, base: Path<V>, t: Tree<V>)
    ensures Items(Graft(q, base), t) == Before(base) + Items(q, t) + After(base)
    decreases q
  {
    match q
    case AtRoot =>
    case InLeft(up, c, v, r) =>
      ItemsUpLeft(Graft(up, base), c, t, v, r);
      ItemsUpLeft(up, c, t, v, r);
      ItemsGraft(up, base, Node(c, t, v, r));
    case InRight(up, c, l, v) =>
      ItemsUpRight(Graft(up, base), c, l, v, t);
      ItemsUpRight(up, c, l, v, t);
      ItemsGraft(up, base, Node(c, l, v, t));
  }

  /** The red-black rules do not look at items. */
  lemma {:induction false} FitsOtherItem<V>(q: Path<V>, p: Path<V>, c: Color, l: Tree<V>, x: V, y: V, h: nat, k: Color)
    ensures Fits(Graft(q, InRight(p, c, l, x)), h, k) <==> Fits(Graft(q, InRight(p, c, l, y)), h, k)
    decreases q
  {
    match q
    case AtRoot =>
    case InLeft(up, pc, v, r) => FitsOtherItem(up, p, c, l, x, y, if pc == Black then h + 1 else h, pc);
    case InRight(up, pc, l', v) => FitsOtherItem(up, p, c, l, x, y, if pc == Black then h + 1 else h, pc);
  }

  /** A node with at most one child is taken out. A child, which must be red below a black
      node, takes over the colour; without one, a black node leaves its place short. */
  lemma TakeOut<V>(p: Path<V>, c: Color, v: V, child: Tree<V>)
    requires Settled(p, Node(c, Leaf, v, child)) || Settled(p, Node(c, child, v, Leaf))
    ensures child.Node? ==> c == Black && Settled(p, child.(color := Black))
    ensures child.Leaf? ==> if c == Red then Settled(p, Leaf) else OneShort(p, Leaf)
  {
    assert Good(child);
    if child.Leaf? {
      FitsBlack(p, BlackHeight(Node(c, child, v, child)), c);
    }
  }

  /** All frames of the path are left ones: the way down to the leftmost node. */
  predicate AllLeft<V>(q: Path<V>) {
    q.AtRoot? || (q.InLeft? && AllLeft(q.up))
  }

  lemma {:induction false} AllLeftBefore<V>(q: Path<V>)
    requires AllLeft(q)
    ensures Before(q) == []
  {
    if q.InLeft? {
      AllLeftBefore(q.up);
    }
  }

  /** Being settled does not depend on where one looks from. */
  lemma {:induction false} SettledGraft<V>(q: Path<V>, base: Path<V>, t: Tree<V>)
    ensures Settled(Graft(q, base), t) <==> Settled(base, Plug(q, t))
    decreases q
  {
    match q
    case AtRoot =>
    case InLeft(up, c, v, r) => SettledGraft(up, base, Node(c, t, v, r));
    case InRight(up, c, l, v) => SettledGraft(up, base, Node(c, l, v, t));
  }

  function Recolored<V>(t: Tree<V>, c: Color): Tree<V> {
    if t.Leaf? then Leaf else t.(color := c)
  }

  /** The rules after the successor `s` took the place and colour of `n` and its right
      child took the successor's place: at most that last place is short. */
  lemma TwoChildRules<V>(p: Path<V>, c: Color, l: Tree<V>, n: V, q: Path<V>, cs: Color, s: V, c2: Tree<V>)
    requires Settled(p, Node(c, l, n, Plug(q, Node(cs, Leaf, s, c2))))
    ensures var p' := Graft(q, InRight(p, c, l, s));
      if c2.Node? || cs == Red then Settled(p', Recolored(c2, Black)) else OneShort(p', Leaf)
  {
    var t, t' := Node(cs, Leaf, s, c2), Recolored(c2, Black);
    SettledGraft(q, InRight(p, c, l, n), t);
    TakeOut(Graft(q, InRight(p, c, l, n)), cs, s, c2);
    FitsOtherItem(q, p, c, l, n, s, BlackHeight(t'), Black);
    FitsOtherItem(q, p, c, l, n, s, 1, Black);
  }

  /** Only the erased item disappears from the order. */
  lemma TwoChildOrder<V>(p: Path<V>, c: Color, l: Tree<V>, n: V, q: Path<V>, cs: Color, s: V, c2: Tree<V>)
    requires AllLeft(q)
    ensures Items(Graft(q, InRight(p, c, l, s)), Recolored(c2, Black))
      == Before(p) + InOrder(l) + InOrder(Plug(q, Node(cs, Leaf, s, c2))) + After(p)
  {
    var t, t' := Node(cs, Leaf, s, c2), Recolored(c2, Black);
    ItemsGraft(q, InRight(p, c, l, s), t');
    PlugInOrder(q, t);
    AllLeftBefore(q);
    Regroup(Before(p), InOrder(l), s, InOrder(c2), After(q), After(p));
  }

  lemma Regroup<V>(b: seq<V>, l: seq<V>, s: V, t: seq<V>, a: seq<V>, f: seq<V>)
    ensures (b + l + [s]) + ([] + t + a) + f == b + l + ([] + ([] + [s] + t) + a) + f
  {
  }

  lemma OneChildOrder<V>(p: Path<V>, c: Color, l: Tree<V>, n: V, r: Tree<V>, child: Tree<V>, k: Color)
    requires (l.Leaf? && child == r) || (r.Leaf? && child == l)
    ensures Items(p, Recolored(child, k)) == Before(p) + InOrder(l) + InOrder(r) + After(p)
  {
    assert InOrder(Recolored(child, k)) == InOrder(child);
  }

  // ---------------------------------------------------------------- sequences

  /** `s` without the first occurrence of `x`. */
  function Without<V(==)>(s: seq<V>, x: V): seq<V> {
    if s == [] then [] else if s[0] == x then s[1..] else [s[0]] + Without(s[1..], x)
  }

  lemma {:induction false} WithoutMiddle<V>(a: seq<V>, x: V, b: seq<V>)
    requires x !in a
    ensures Without(a + [x] + b, x) == a + b
  {
    if a == [] {
      assert a + [x] + b == [x] + b;
    } else {
      assert (a + [x] + b)[1..] == a[1..] + [x] + b;
      WithoutMiddle(a[1..], x, b);
    }
  }
}
