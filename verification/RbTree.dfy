/** The tree on the heap: when the links say what a shape and a path say, and the moves that
    relink one position. */
module RbTree {
  import opened RbShape

  function NodeColor<D>(n: Node?<D>): Color
    reads if n == null then {} else {n}
  {
    if n == null then Black else n.color
  }

  /** The links below the root of s are those of s.  (Its own parent link is not covered.) */
  ghost predicate Linked<D>(s: Shape<D>)
    reads Nodes(s)`left, Nodes(s)`right, Nodes(s)`parent, Nodes(s)`color
  {
    s.Fork? ==>
      var n := s.entry.head.node;
      && n.left == Root(s.left) && n.right == Root(s.right) && n.color == s.color
      && Linked(s.left) && Linked(s.right)
      && HangsFrom(s.left, n) && HangsFrom(s.right, n)
  }

  ghost predicate HangsFrom<D>(s: Shape<D>, n: Node?<D>)
    reads (if s.Fork? then {s.entry.head.node} else {})`parent
  {
    s.Fork? ==> s.entry.head.node.parent == n
  }

  /** if (x != NULL) x->parent = par */
  method Reparent<D>(x: Node?<D>, par: Node?<D>, ghost s: Shape<D>)
    requires Linked(s) && Apart(s) && x == Root(s)
    modifies {x}`parent
    ensures Linked(s) && HangsFrom(s, par)
  {
    if x != null {
      x.parent := par;
    }
  }

  /** n->right = x; if (x != NULL) x->parent = n */
  method SetRight<D>(n: Node<D>, x: Node?<D>, ghost s: Shape<D>)
    requires s.Fork? && Apart(s) && n == s.entry.head.node && x == Root(s.right)
    requires n.left == Root(s.left) && n.color == s.color && HangsFrom(s.left, n)
    requires Linked(s.left) && Linked(s.right)
    modifies n`right, {x}`parent
    ensures Linked(s)
  {
    n.right := x;
    if x != null {
      x.parent := n;
    }
  }

  /** n->left = x; if (x != NULL) x->parent = n */
  method SetLeft<D>(n: Node<D>, x: Node?<D>, ghost s: Shape<D>)
    requires s.Fork? && Apart(s) && n == s.entry.head.node && x == Root(s.left)
    requires n.right == Root(s.right) && n.color == s.color && HangsFrom(s.right, n)
    requires Linked(s.right) && Linked(s.left)
    modifies n`left, {x}`parent
    ensures Linked(s)
  {
    n.left := x;
    if x != null {
      x.parent := n;
    }
  }

  /** A comparator: positive, zero or negative as its first argument belongs after, with or
      before the second. */
  ghost predicate TotalPreorder<D(!new)>(cmp: (D, D) -> int) {
    && (forall a, b :: cmp(a, b) > 0 <==> cmp(b, a) < 0)
    && (forall a, b, c :: cmp(a, b) <= 0 && cmp(b, c) <= 0 ==> cmp(a, c) <= 0)
  }

  ghost predicate Ordered<D(!new)>(cmp: (D, D) -> int, es: seq<Entry<D>>) {
    forall i, j | 0 <= i < j < |es| :: cmp(es[i].head.data, es[j].head.data) < 0
  }

  /** Chained nodes carry the key of the node they hang from. */
  ghost predicate SameKeys<D(!new)>(cmp: (D, D) -> int, es: seq<Entry<D>>) {
    forall e, it | e in es && it in e.chain :: cmp(e.head.data, it.data) == 0
  }

  ghost function NodeAt<D>(chain: seq<Item<D>>, i: nat): Node?<D> {
    if i < |chain| then chain[i].node else null
  }

  /** The next links starting at x hold exactly the chain. */
  ghost predicate Chained<D>(x: Node?<D>, chain: seq<Item<D>>)
    reads ChainNodes(chain)`next, ChainNodes(chain)`data
  {
    && x == NodeAt(chain, 0)
    && forall i | 0 <= i < |chain| ::
         chain[i].node in ChainNodes(chain) &&
         chain[i].node.data == chain[i].data && chain[i].node.next == NodeAt(chain, i + 1)
  }

  ghost predicate Stored<D>(e: Entry<D>)
    reads EntryNodes(e)`next, EntryNodes(e)`data
  {
    e.head.node.data == e.head.data && Chained(e.head.node.next, e.chain)
  }

  /** The nodes of the entries are in xs, are all different, and hold the data and the next
      links the entries say. */
  ghost predicate Held<D>(es: seq<Entry<D>>, xs: set<Node<D>>)
    reads xs`next, xs`data
  {
    && Separate(es)
    && (forall e | e in es :: EntryNodes(e) <= xs && Stored(e))
  }

  class RbTree<D(!new)> {
    var root: Node?<D>
    const cmp: (D, D) -> int
    const multiple: bool
    /** What zero-filled memory reads as. */
    const zero: D
    /** The nodes handed back to the allocator, oldest first. */
    var recycled: seq<Node<D>>
    ghost var shape: Shape<D>
    /** The nodes with a position in the tree, and those chained to one of them. */
    ghost var Repr: set<Node<D>>
    ghost var Hung: set<Node<D>>

    constructor (cmp: (D, D) -> int, multiple: bool, zero: D)
      requires TotalPreorder(cmp)
      ensures Valid() && shape == Leaf && recycled == [] && Owned() == {}
      ensures this.cmp == cmp && this.multiple == multiple && this.zero == zero
    {
      this.cmp, this.multiple, this.zero := cmp, multiple, zero;
      root, recycled, shape, Repr, Hung := null, [], Leaf, {}, {};
    }

    ghost function Owned(): set<Node<D>>
      reads this`Repr, this`Hung
    {
      Repr + Hung
    }

    /** Chained nodes have no position, and still the color they were chained with. */
    ghost predicate Hanging(es: seq<Entry<D>>)
      reads this`Repr, this`Hung, Hung`color
    {
      && Repr !! Hung
      && (forall x | x in Hung :: x.color == Red)
      && (forall e | e in es :: ChainNodes(e.chain) <= Hung)
    }

    /** Everything but the colors of the tree. */
    ghost predicate Sound()
      reads this`root, this`shape, this`Repr, this`Hung, Repr, Hung
    {
      && TotalPreorder(cmp)
      && Focused(Top, shape) && Held(Entries(shape), Owned()) && Hanging(Entries(shape))
      && Ordered(cmp, Entries(shape)) && SameKeys(cmp, Entries(shape))
      && (!multiple ==> forall e | e in Entries(shape) :: e.chain == [])
    }

    ghost predicate Valid()
      reads this`root, this`shape, this`Repr, this`Hung, Repr, Hung
    {
      Sound() && RedBlack(shape)
    }

    /** The surroundings p are what the links around the position of hole say. */
    ghost predicate PathLinked(p: Path<D>, hole: Node?<D>)
      reads this`root, PathNodes(p)`left, PathNodes(p)`right, PathNodes(p)`parent, PathNodes(p)`color
      decreases p
    {
      match p
      case Top => root == hole
      case InLeft(c, e, s, up) =>
        var n := e.head.node;
        && n.left == hole && n.right == Root(s) && n.color == c && n.parent == ParentOf(up)
        && Linked(s) && HangsFrom(s, n) && PathLinked(up, n)
      case InRight(s, c, e, up) =>
        var n := e.head.node;
        && n.left == Root(s) && n.right == hole && n.color == c && n.parent == ParentOf(up)
        && Linked(s) && HangsFrom(s, n) && PathLinked(up, n)
    }

    /** No node occurs twice in p and s together, and the tree owns them all. */
    ghost predicate Placed(p: Path<D>, s: Shape<D>)
      reads this`Repr
    {
      && PathNodes(p) + Nodes(s) <= Repr
      && PathApart(p) && Apart(s) && PathNodes(p) !! Nodes(s)
    }

    ghost predicate Focused(p: Path<D>, s: Shape<D>)
      reads this`root, this`Repr, Repr`left, Repr`right, Repr`parent, Repr`color
    {
      Placed(p, s) && PathLinked(p, Root(s)) && Linked(s) && HangsFrom(s, ParentOf(p))
    }

    lemma Refocus(p: Path<D>, s: Shape<D>)
      requires !p.Top?
      ensures Focused(p, s) <==> Focused(p.up, Grown(p, s))
    {
    }

    /** Moving the focus to the root and back. */
    lemma {:induction false} Whole(p: Path<D>, s: Shape<D>)
      ensures Focused(p, s) <==> Focused(Top, Plug(p, s))
      decreases p
    {
      if !p.Top? {
        Refocus(p, s);
        Whole(p.up, Grown(p, s));
      }
    }

    /** What a node at an inner position sees through its parent link. */
    lemma Local(p: Path<D>, s: Shape<D>)
      requires Focused(p, s) && s.Fork?
      ensures var n := s.entry.head.node;
        && n in Repr && n.color == s.color && n.parent == ParentOf(p)
        && n.left == Root(s.left) && n.right == Root(s.right) && n.left != n && n.right != n
        && (s.left.Fork? ==> n.left in Repr && n.left.color == s.left.color)
        && (s.right.Fork? ==> n.right in Repr && n.right.color == s.right.color)
      ensures !p.Top? ==>
        var n, f, o := s.entry.head.node, p.entry.head.node, SiblingOf(p);
        && f in Repr && n != f && f.color == p.color && f.parent == ParentOf(p.up)
        && (n == f.left <==> p.InLeft?) && (n == f.right <==> p.InRight?)
        && (if p.InLeft? then f.right == Root(o) else f.left == Root(o))
        && (o.Fork? ==> Root(o) in Repr && Root(o) != n && Root(o).color == o.color
                        && Root(o).left == Root(o.left) && Root(o).right == Root(o.right)
                        && Root(o).parent == f
                        && (o.left.Fork? ==> Root(o.left) in Repr && Root(o.left).color == o.left.color)
                        && (o.right.Fork? ==> Root(o.right) in Repr && Root(o.right).color == o.right.color))
    {
      assert Linked(s.left) && Linked(s.right);
      if !p.Top? && SiblingOf(p).Fork? {
        assert Linked(SiblingOf(p));
        assert Linked(SiblingOf(p).left) && Linked(SiblingOf(p).right);
      }
    }

    /** Store x in the link that leads to the open position of p. */
    method Link(x: Node?<D>, par: Node?<D>, left: bool, ghost hole: Node?<D>, ghost p: Path<D>)
      requires PathNodes(p) <= Repr && PathApart(p) && PathLinked(p, hole)
      requires par == ParentOf(p) && (p.Top? || left == p.InLeft?)
      modifies this`root, {par}`left, {par}`right
      ensures PathLinked(p, x)
    {
      if par == null {
        root := x;
      } else if left {
        par.left := x;
      } else {
        par.right := x;
      }
    }

    method Hang(x: Node?<D>, par: Node?<D>, left: bool, ghost hole: Node?<D>, ghost p: Path<D>, ghost s: Shape<D>)
      requires Placed(p, s) && PathLinked(p, hole) && Linked(s)
      requires x == Root(s) && par == ParentOf(p) && (p.Top? || left == p.InLeft?)
      modifies this`root, {par}`left, {par}`right
      modifies {x}`parent
      ensures Focused(p, s)
    {
      assert x != null ==> x !in PathNodes(p);
      assert par != null ==> par in PathNodes(p);
      hide PathLinked; hide Linked; hide Apart; hide PathApart; hide PathNodes; hide HangsFrom;
      Link(x, par, left, hole, p);
      Reparent(x, par, s);

    }

    method ReplaceNode(oldn: Node<D>, newn: Node?<D>, ghost p: Path<D>, ghost s: Shape<D>, ghost s': Shape<D>)
      requires Focused(p, s) && s.Fork? && oldn == s.entry.head.node
      requires Placed(p, s') && Linked(s') && newn == Root(s')
      modifies this`root, {oldn.parent}`left, {oldn.parent}`right, {newn}`parent
      ensures Focused(p, s')
    {
      assert oldn !in PathNodes(p);
      Hang(newn, oldn.parent, oldn.parent != null && oldn == oldn.parent.left, oldn, p, s');
    }

    /** What a left rotation starts from. */
    lemma RotationStart(p: Path<D>, s: Shape<D>)
      requires Focused(p, s) && s.Fork? && s.right.Fork?
      ensures Placed(p, s.right) && Linked(s.right) && Linked(s.left) && HangsFrom(s.left, s.entry.head.node)
      ensures var n := s.entry.head.node;
        n in Repr && n.left == Root(s.left) && n.right == Root(s.right) && n.color == s.color && n.parent == ParentOf(p)
      ensures s.right.entry.head.node in Repr
      ensures !p.Top? ==> ParentOf(p) in PathNodes(p)
      ensures Nodes(s.left) !! PathNodes(p) && Nodes(s.left) !! Nodes(s.right)
      ensures s.entry.head.node !in PathNodes(p) + Nodes(s.left) + Nodes(s.right)
    {
    }

    lemma RotationStartRight(p: Path<D>, s: Shape<D>)
      requires Focused(p, s) && s.Fork? && s.left.Fork?
      ensures Placed(p, s.left) && Linked(s.left) && Linked(s.right) && HangsFrom(s.right, s.entry.head.node)
      ensures var n := s.entry.head.node;
        n in Repr && n.left == Root(s.left) && n.right == Root(s.right) && n.color == s.color && n.parent == ParentOf(p)
      ensures s.left.entry.head.node in Repr
      ensures !p.Top? ==> ParentOf(p) in PathNodes(p)
      ensures Nodes(s.right) !! PathNodes(p) && Nodes(s.right) !! Nodes(s.left)
      ensures s.entry.head.node !in PathNodes(p) + Nodes(s.left) + Nodes(s.right)
    {
    }

    method RotateLeft(n: Node<D>, ghost p: Path<D>, ghost s: Shape<D>)
      requires Focused(p, s) && s.Fork? && s.right.Fork? && n == s.entry.head.node
      modifies this`root, Repr`left, Repr`right, Repr`parent
      ensures Focused(p, RotatedLeft(s))
    {
      hide Focused; hide Placed; hide Linked; hide Apart; hide PathApart; hide PathLinked; hide PathNodes;
      var r := n.right;
      RotationStart(p, s);
      RotationApart(p, s);
      RootIn(s.right);
      ReplaceNode(n, r, p, s, s.right);
      LowerLeft(n, r, p, s);
    }

    lemma RotationApart(p: Path<D>, s: Shape<D>)
      requires Focused(p, s)
      ensures PathApart(p) && Apart(s) && PathNodes(p) !! Nodes(s) && Nodes(s) <= Repr
    {
    }

    lemma RootIn(s: Shape<D>)
      ensures s.Fork? ==> Root(s) in Nodes(s)
    {
    }

    /** n goes down to the left of r, which has taken its place. */
    method LowerLeft(n: Node<D>, r: Node<D>, ghost p: Path<D>, ghost s: Shape<D>)
      requires s.Fork? && s.right.Fork? && n == s.entry.head.node && r == s.right.entry.head.node
      requires Focused(p, s.right) && PathApart(p) && Apart(s) && PathNodes(p) !! Nodes(s) && Nodes(s) <= Repr
      requires Linked(s.left) && HangsFrom(s.left, n) && n.left == Root(s.left) && n.color == s.color
      modifies this`root, Repr`left, Repr`right, Repr`parent
      ensures Focused(p, RotatedLeft(s))
    {
      hide Focused; hide Placed; hide Linked; hide Apart; hide PathApart;
      hide PathLinked; hide PathNodes; hide HangsFrom;
      hide Nodes;
      ghost var q, t := InLeft(s.right.color, s.right.entry, s.right.right, p), RotatedLeft(s).left;
      RotationPlaces(p, s);
      LowerStart(p, s, q, t);
      ghost var b := r.left;
      SetRight(n, r.left, t);
      assert PathLinked(q, b);
      Hang(n, r, true, b, q, t);
      Refocus(q, t);
    }

    lemma LowerStart(p: Path<D>, s: Shape<D>, q: Path<D>, t: Shape<D>)
      requires s.Fork? && s.right.Fork? && Focused(p, s.right) && Nodes(s) <= Repr
      requires q == InLeft(s.right.color, s.right.entry, s.right.right, p) && t == RotatedLeft(s).left
      requires PathApart(q) && Apart(t) && PathNodes(q) !! Nodes(t) && PathNodes(q) <= PathNodes(p) + Nodes(s)
      requires Nodes(t) <= Nodes(s)
      ensures var n, r := s.entry.head.node, s.right.entry.head.node;
        && Focused(q, t.right) && PathLinked(q, r.left) && Linked(t.right) && r.left == Root(t.right) && Placed(q, t)
        && n in Nodes(t) && n !in PathNodes(q) && n in Repr && r in PathNodes(q) && r in Repr
        && (r.left != null ==> r.left in Nodes(t) && r.left in Repr && r.left !in PathNodes(q))
    {
      Refocus(q, t.right);
    }

    method RotateRight(n: Node<D>, ghost p: Path<D>, ghost s: Shape<D>)
      requires Focused(p, s) && s.Fork? && s.left.Fork? && n == s.entry.head.node
      modifies this`root, Repr`right, Repr`left, Repr`parent
      ensures Focused(p, RotatedRight(s))
    {
      hide Focused; hide Placed; hide Linked; hide Apart; hide PathApart; hide PathLinked; hide PathNodes;
      var l := n.left;
      RotationStartRight(p, s);
      RotationApart(p, s);
      RootIn(s.left);
      ReplaceNode(n, l, p, s, s.left);
      LowerRight(n, l, p, s);
    }

    /** n goes down to the right of l, which has taken its place. */
    method LowerRight(n: Node<D>, l: Node<D>, ghost p: Path<D>, ghost s: Shape<D>)
      requires s.Fork? && s.left.Fork? && n == s.entry.head.node && l == s.left.entry.head.node
      requires Focused(p, s.left) && PathApart(p) && Apart(s) && PathNodes(p) !! Nodes(s) && Nodes(s) <= Repr
      requires Linked(s.right) && HangsFrom(s.right, n) && n.right == Root(s.right) && n.color == s.color
      modifies this`root, Repr`right, Repr`left, Repr`parent
      ensures Focused(p, RotatedRight(s))
    {
      hide Focused; hide Placed; hide Linked; hide Apart; hide PathApart;
      hide PathLinked; hide PathNodes; hide HangsFrom;
      hide Nodes;
      ghost var q, t := InRight(s.left.left, s.left.color, s.left.entry, p), RotatedRight(s).right;
      RotationPlacesRight(p, s);
      LowerStartRight(p, s, q, t);
      ghost var b := l.right;
      SetLeft(n, l.right, t);
      assert PathLinked(q, b);
      Hang(n, l, false, b, q, t);
      Refocus(q, t);
    }

    lemma LowerStartRight(p: Path<D>, s: Shape<D>, q: Path<D>, t: Shape<D>)
      requires s.Fork? && s.left.Fork? && Focused(p, s.left) && Nodes(s) <= Repr
      requires q == InRight(s.left.left, s.left.color, s.left.entry, p) && t == RotatedRight(s).right
      requires PathApart(q) && Apart(t) && PathNodes(q) !! Nodes(t) && PathNodes(q) <= PathNodes(p) + Nodes(s)
      requires Nodes(t) <= Nodes(s)
      ensures var n, l := s.entry.head.node, s.left.entry.head.node;
        && Focused(q, t.left) && PathLinked(q, l.right) && Linked(t.left) && l.right == Root(t.left) && Placed(q, t)
        && n in Nodes(t) && n !in PathNodes(q) && n in Repr && l in PathNodes(q) && l in Repr
        && (l.right != null ==> l.right in Nodes(t) && l.right in Repr && l.right !in PathNodes(q))
    {
      Refocus(q, t.left);
    }
  }
}
