/** Exchanging a node that has two children with its in-order predecessor, by relinking the
    two nodes rather than by copying data between them. */
module RbSwap {
  import opened RbShape
  import opened RbTree

  lemma {:induction false} FocusAppend<D(!new)>(t: RbTree<D>, q: Path<D>, base: Path<D>, m: Shape<D>)
    ensures t.Focused(base, Plug(q, m)) <==> t.Focused(Append(q, base), m)
    decreases q
  {
    if !q.Top? {
      FocusAppend(t, q.up, base, Grown(q, m));
      t.Refocus(Append(q, base), m);
    }
  }

  method MaximumNode<D(!new)>(t: RbTree<D>, n: Node<D>, ghost base: Path<D>, ghost s: Shape<D>)
    returns (max: Node<D>, ghost q: Path<D>, ghost m: Shape<D>)
    requires t.Focused(base, s) && s.Fork? && n == s.entry.head.node
    ensures s == Plug(q, m) && Spine(q) && m.Fork? && m.right.Leaf? && max == m.entry.head.node
    ensures t.Focused(Append(q, base), m)
  {
    hide RbTree.Focused;
    max, q, m := n, Top, s;
    t.Local(base, s);
    while max.right != null
      invariant s == Plug(q, m) && Spine(q) && m.Fork? && max == m.entry.head.node
      invariant t.Focused(Append(q, base), m) && max.right == Root(m.right)
      decreases m
    {
      ghost var q' := InRight(m.left, m.color, m.entry, q);
      t.Refocus(Append(q', base), m.right);
      max := max.right;
      q, m := q', m.right;
      t.Local(Append(q, base), m);
    }
  }

  /** All nodes whose links the exchange touches are different objects, except that the
      predecessor may be the left child itself, and its parent may be that left child. */
  ghost predicate Exchangeable<D(!new)>(t: RbTree<D>, n: Node<D>, pred: Node<D>)
    reads t, n, pred, n.parent, pred.parent
  {
    && n.left != null && n.right != null && pred.parent != null
    && n != pred && n.left != n && n.right != n && n.left != n.right && n.right != pred
    && (n.left == pred <==> pred.parent == n)
    && (pred.parent != n ==> pred.parent.right == pred && pred.parent.left != pred
                             && pred.parent != pred && pred.parent != n.right && n.left != pred)
    && (n.parent == null ==> t.root == n)
    && (n.parent != null ==>
          && n.parent != n && n.parent != pred && n.parent != n.left && n.parent != n.right
          && n.parent != pred.parent && (n.parent.left == n || n.parent.right == n))
    && Loose(pred.left, n, pred) && Loose(pred.right, n, pred)
    && (pred.left != null ==> pred.left != pred.right)
  }

  ghost predicate Loose<D(!new)>(x: Node?<D>, n: Node<D>, pred: Node<D>)
    reads n, pred
  {
    x != null ==>
      && x != n && x != pred && x != n.left && x != n.right && x != n.parent && x != pred.parent
  }

  /** The child link of f that held x holds y. */
  twostate predicate Relinked<D(!new)>(f: Node<D>, x: Node<D>, y: Node<D>)
    reads f
  {
    if old(f.left) == x then f.left == y && f.right == old(f.right)
    else f.right == y && f.left == old(f.left)
  }

  method ExchangeLeft<D(!new)>(n: Node<D>, pred: Node<D>)
    requires n != pred && n.left != null && n.left != pred && pred.left != n.left
    requires pred.left != n && pred.left != pred
    modifies {n, pred}`left, {n.left, pred.left}`parent
    ensures pred.left == old(n.left) && n.left == old(pred.left)
    ensures pred.left.parent == pred
    ensures n.left != null ==> n.left.parent == n
  {
    var tmp := pred.left;
    if pred.left != null {
      pred.left.parent := n;
    }
    if n.left != null {
      n.left.parent := pred;
    }
    pred.left := n.left;
    n.left := tmp;
  }

  method ExchangeRight<D(!new)>(n: Node<D>, pred: Node<D>)
    requires n != pred && n.right != null && n.right != pred && pred.right != n.right
    requires pred.right != n && pred.right != pred
    modifies {n, pred}`right, {n.right, pred.right}`parent
    ensures pred.right == old(n.right) && n.right == old(pred.right)
    ensures pred.right.parent == pred
    ensures n.right != null ==> n.right.parent == n
  {
    var tmp := pred.right;
    if pred.right != null {
      pred.right.parent := n;
    }
    if n.right != null {
      n.right.parent := pred;
    }
    pred.right := n.right;
    n.right := tmp;
  }

  method SwapLinks<D(!new)>(t: RbTree<D>, n: Node<D>, pred: Node<D>)
    requires Exchangeable(t, n, pred)
    modifies t`root
    modifies {n, pred, n.parent, pred.parent}`left, {n, pred, n.parent, pred.parent}`right
    modifies {n, pred, n.left, n.right, pred.left, pred.right}`parent
    modifies {n, pred}`color, n`data
    ensures n.color == old(pred.color) && pred.color == old(n.color)
    ensures n.left == old(pred.left) && n.right == old(pred.right)
    ensures n.parent == if old(n.left) == pred then pred else old(pred.parent)
    ensures pred.left == if old(n.left) == pred then n else old(n.left)
    ensures pred.right == old(n.right) && pred.parent == old(n.parent)
    ensures old(n.left) != pred ==> Relinked(old(pred.parent), pred, n) && old(n.left).parent == pred
    ensures old(n.right).parent == pred && n.data == pred.data
    ensures pred.left != null && pred.left.parent == pred
    ensures n.left != null ==> n.left.parent == n
    ensures n.right != null ==> n.right.parent == n
    ensures if old(n.parent) == null then t.root == pred
            else t.root == old(t.root) && Relinked(old(n.parent), n, pred)
  {
    var tmp := pred.parent;
    var tmpColor := pred.color;
    pred.color := n.color;
    n.color := tmpColor;

    if pred.parent != null {
      if pred == pred.parent.left { pred.parent.left := n; } else { pred.parent.right := n; }
    }
    if n.parent != null {
      if n == n.parent.left { n.parent.left := pred; } else { n.parent.right := pred; }
    }
    pred.parent := n.parent;
    n.parent := tmp;

    ExchangeLeft(n, pred);
    ExchangeRight(n, pred);
    n.data := pred.data;
    if pred.parent == null {
      t.root := pred;
    }
  }

  // ---------- what the exchanged links draw ----------

  /** The outermost node of a path, or hole if the path is empty. */
  ghost function Outermost<D(!new)>(q: Path<D>, hole: Node?<D>): Node?<D> {
    if q.Top? then hole else Outermost(q.up, q.entry.head.node)
  }

  datatype Links<D> = Links(left: Node?<D>, right: Node?<D>, parent: Node?<D>, color: Color)

  ghost function LinksAt<D(!new)>(x: Node<D>): Links<D>
    reads x
  {
    Links(x.left, x.right, x.parent, x.color)
  }

  /** In the recorded links w, the path q lies between hole and the node above. */
  ghost predicate DrawnSpine<D(!new)>(w: map<Node<D>, Links<D>>, q: Path<D>, hole: Node?<D>, above: Node?<D>) {
    q.InRight? ==>
      var x := q.entry.head.node;
      && x in w && w[x] == Links(Root(q.left), hole, if q.up.Top? then above else ParentOf(q.up), q.color)
      && Drawn(w, q.left, x) && DrawnSpine(w, q.up, x, above)
  }

  ghost predicate Drawn<D(!new)>(w: map<Node<D>, Links<D>>, s: Shape<D>, par: Node?<D>) {
    s.Fork? ==>
      var x := s.entry.head.node;
      && x in w && w[x] == Links(Root(s.left), Root(s.right), par, s.color)
      && Drawn(w, s.left, x) && Drawn(w, s.right, x)
  }

  ghost predicate Recorded<D(!new)>(w: map<Node<D>, Links<D>>, xs: set<Node<D>>)
    reads xs
  {
    forall x | x in xs :: x in w && w[x] == LinksAt(x)
  }

  lemma {:induction false} RecordShape<D(!new)>(w: map<Node<D>, Links<D>>, s: Shape<D>, par: Node?<D>)
    requires Recorded(w, Nodes(s))
    ensures Drawn(w, s, par) <==> Linked(s) && HangsFrom(s, par)
  {
    if s.Fork? {
      RecordShape(w, s.left, s.entry.head.node);
      RecordShape(w, s.right, s.entry.head.node);
    }
  }

  lemma {:induction false} RecordSpine<D(!new)>(w: map<Node<D>, Links<D>>, t: RbTree<D>, q: Path<D>, base: Path<D>,
      hole: Node?<D>)
    requires Spine(q) && Recorded(w, PathNodes(q))
    ensures t.PathLinked(Append(q, base), hole) <==>
            DrawnSpine(w, q, hole, ParentOf(base)) && t.PathLinked(base, Outermost(q, hole))
    decreases q
  {
    if !q.Top? {
      RecordShape(w, q.left, q.entry.head.node);
      RecordSpine(w, t, q.up, base, q.entry.head.node);
    }
  }

  lemma {:induction false} OutermostIn<D(!new)>(q: Path<D>, hole: Node?<D>)
    ensures !q.Top? ==> Outermost(q, hole) in PathNodes(q) && Outermost(q, hole) == Outermost(q, null)
  {
    if !q.Top? { OutermostIn(q.up, q.entry.head.node); OutermostIn(q.up, null); }
  }

  lemma {:induction false} DrawnKept<D(!new)>(w: map<Node<D>, Links<D>>, w': map<Node<D>, Links<D>>, s: Shape<D>,
      par: Node?<D>)
    requires Drawn(w, s, par) && forall x | x in Nodes(s) && x in w :: x in w' && w'[x] == w[x]
    ensures Drawn(w', s, par)
  {
    if s.Fork? {
      DrawnKept(w, w', s.left, s.entry.head.node);
      DrawnKept(w, w', s.right, s.entry.head.node);
    }
  }

  ghost function Respun<D(!new)>(k: Links<D>, x: Node<D>, q: Path<D>, hole: Node?<D>, above: Node?<D>): Links<D> {
    Links(k.left, if x == ParentOf(q) then hole else k.right,
          if x == Outermost(q, null) then above else k.parent, k.color)
  }

  /** Only the innermost right link and the outermost parent link of the spine differ. */
  lemma {:induction false} SpineKept<D(!new)>(w: map<Node<D>, Links<D>>, w': map<Node<D>, Links<D>>, q: Path<D>,
                                        hole: Node?<D>, hole': Node?<D>, above: Node?<D>, above': Node?<D>)
    requires Spine(q) && PathApart(q) && DrawnSpine(w, q, hole, above)
    requires forall x | x in PathNodes(q) && x in w :: x in w' && w'[x] == Respun(w[x], x, q, hole', above')
    ensures DrawnSpine(w', q, hole', above')
    decreases q
  {
    if !q.Top? {
      var x := q.entry.head.node;
      OutermostIn(q, null);
      OutermostIn(q.up, x);
      if !q.up.Top? { OutermostIn(q.up, null); }
      DrawnKept(w, w', q.left, x);
      SpineKept(w, w', q.up, x, x, above, above');
    }
  }

  lemma Rehung<D(!new)>(w: map<Node<D>, Links<D>>, w': map<Node<D>, Links<D>>, s: Shape<D>, par: Node?<D>,
      par': Node?<D>)
    requires Drawn(w, s, par) && Apart(s)
    requires forall x | x in Nodes(s) && x in w && x != Root(s) :: x in w' && w'[x] == w[x]
    requires forall x | x == Root(s) && x in w :: x in w' && w'[x] == w[x].(parent := par')
    ensures Drawn(w', s, par')
  {
    if s.Fork? {
      DrawnKept(w, w', s.left, s.entry.head.node);
      DrawnKept(w, w', s.right, s.entry.head.node);
    }
  }

  /** The links of x after n has changed places with its predecessor k. */
  ghost function Moved<D(!new)>(w: map<Node<D>, Links<D>>, n: Node<D>, k: Node<D>, x: Node<D>): Links<D>
    requires n in w && k in w && x in w
  {
    if x == n then Links(w[k].left, w[k].right, if w[n].left == k then k else w[k].parent, w[k].color)
    else if x == k then Links(if w[n].left == k then n else w[n].left, w[n].right, w[n].parent, w[n].color)
    else Links(w[x].left, if x == w[k].parent then n else w[x].right,
               if x == w[n].left || x == w[n].right then k
               else if x == w[k].left || x == w[k].right then n else w[x].parent, w[x].color)
  }

  ghost predicate Exchanged<D(!new)>(w: map<Node<D>, Links<D>>, w': map<Node<D>, Links<D>>, n: Node<D>, k: Node<D>,
      xs: set<Node<D>>) {
    n in w && k in w && forall x | x in xs && x in w :: x in w' && w'[x] == Moved(w, n, k, x)
  }

  lemma {:induction false} OutermostPlug<D(!new)>(q: Path<D>, m: Shape<D>)
    requires m.Fork?
    ensures Root(Plug(q, m)) == Outermost(q, m.entry.head.node)
    decreases q
  {
    if !q.Top? { OutermostPlug(q.up, Grown(q, m)); }
  }

  lemma SpineEnds<D(!new)>(q: Path<D>, m: Shape<D>)
    requires Spine(q) && PathApart(q) && m.Fork? && m.entry.head.node !in PathNodes(q)
    ensures !q.Top? ==> ParentOf(q) in PathNodes(q) && Outermost(q, m.entry.head.node) == Outermost(q, null)
    ensures !q.Top? ==> Outermost(q, null) in PathNodes(q)
  {
    OutermostIn(q, m.entry.head.node);
  }

  /** What the recorded links say about the two nodes that change places. */
  ghost predicate Positions<D(!new)>(w: map<Node<D>, Links<D>>, s: Shape<D>, q: Path<D>, m: Shape<D>)
    requires s.Fork? && m.Fork?
  {
    var n, k := s.entry.head.node, m.entry.head.node;
    && n in w && w[n].left == Outermost(q, k) && w[n].right == Root(s.right)
    && k in w && w[k] == Links(Root(m.left), Root(m.right), if q.Top? then n else ParentOf(q), m.color)
  }

  lemma ExchangedSubtree<D(!new)>(w: map<Node<D>, Links<D>>, w': map<Node<D>, Links<D>>, s: Shape<D>, q: Path<D>,
      m: Shape<D>, o: Shape<D>, par: Node?<D>)
    requires s.Fork? && m.Fork? && s.left == Plug(q, m) && Spine(q) && Apart(s) && Positions(w, s, q, m)
    requires Exchanged(w, w', s.entry.head.node, m.entry.head.node, Nodes(s))
    requires o == m.left || o == m.right || o == s.right
    requires Drawn(w, o, par)
    ensures Drawn(w', o, if o == s.right then m.entry.head.node else s.entry.head.node)
  {
    hide Drawn; hide Plug; hide Spine;
    SwapPlaces(s, q, m);
    PlugNodes(q, m);
    SpineEnds(q, m);
    Rehung(w, w', o, par, if o == s.right then m.entry.head.node else s.entry.head.node);
  }

  lemma ExchangedSpine<D(!new)>(w: map<Node<D>, Links<D>>, w': map<Node<D>, Links<D>>, s: Shape<D>, q: Path<D>,
      m: Shape<D>)
    requires s.Fork? && m.Fork? && s.left == Plug(q, m) && Spine(q) && Apart(s) && Positions(w, s, q, m)
    requires Exchanged(w, w', s.entry.head.node, m.entry.head.node, Nodes(s))
    requires DrawnSpine(w, q, m.entry.head.node, s.entry.head.node)
    ensures DrawnSpine(w', q, s.entry.head.node, m.entry.head.node)
  {
    SwapPlaces(s, q, m);
    PlugNodes(q, m);
    SpineEnds(q, m);
    SpineKept(w, w', q, m.entry.head.node, s.entry.head.node, s.entry.head.node, m.entry.head.node);
  }

  lemma ExchangePositions<D(!new)>(t: RbTree<D>, p: Path<D>, s: Shape<D>, q: Path<D>, m: Shape<D>)
    requires t.Focused(p, s) && s.Fork? && s.right.Fork? && s.left == Plug(q, m) && m.Fork? && Spine(q)
    ensures var n, k := s.entry.head.node, m.entry.head.node;
      && Exchangeable(t, n, k)
      && n in t.Repr && k in t.Repr && (n.parent != null ==> n.parent in t.Repr)
      && n.color == s.color && k.color == m.color
      && n.left == Outermost(q, k) && n.right == Root(s.right) && n.parent == ParentOf(p)
      && k.left == Root(m.left) && k.right == Root(m.right)
      && k.parent == if q.Top? then n else ParentOf(q)
  {
    var base := InLeft(s.color, s.entry, s.right, p);
    var n, k := s.entry.head.node, m.entry.head.node;
    t.Local(p, s);
    t.Refocus(base, s.left);
    FocusAppend(t, q, base, m);
    t.Local(Append(q, base), m);
    SwapPlaces(s, q, m);
    PlugNodes(q, m);
    OutermostPlug(q, m);
    SpineEnds(q, m);
  }

  lemma BeforeExchange<D(!new)>(t: RbTree<D>, w: map<Node<D>, Links<D>>, p: Path<D>, s: Shape<D>, q: Path<D>,
      m: Shape<D>)
    requires t.Focused(p, s) && s.Fork? && s.left == Plug(q, m) && m.Fork? && Spine(q)
    requires Recorded(w, Nodes(s))
    ensures var n, k := s.entry.head.node, m.entry.head.node;
      && DrawnSpine(w, q, k, n)
      && Drawn(w, m.left, k) && Drawn(w, m.right, k) && Drawn(w, s.right, n)
  {
    var base := InLeft(s.color, s.entry, s.right, p);
    var n, k := s.entry.head.node, m.entry.head.node;
    SwapPlaces(s, q, m);
    PlugNodes(q, m);
    t.Refocus(base, s.left);
    FocusAppend(t, q, base, m);
    RecordShape(w, m.left, k);
    RecordShape(w, m.right, k);
    RecordShape(w, s.right, n);
    RecordSpine(w, t, q, base, k);
  }

  lemma SwapPlaced<D(!new)>(t: RbTree<D>, p: Path<D>, s: Shape<D>, q: Path<D>, m: Shape<D>)
    requires t.Placed(p, s) && s.Fork? && s.left == Plug(q, m) && m.Fork?
    ensures t.Placed(Append(q, InLeft(s.color, m.entry, s.right, p)), Fork(m.left, m.color, s.entry, m.right))
  {
    var base, m' := InLeft(s.color, m.entry, s.right, p), Fork(m.left, m.color, s.entry, m.right);
    SwapPlaces(s, q, m);
    AppendPlug(q, base, m');
    PlugNodes(p, Swapped(s, q, m));
    PlugNodes(Append(q, base), m');
  }

  lemma AfterExchange<D(!new)>(t: RbTree<D>, w: map<Node<D>, Links<D>>, p: Path<D>, s: Shape<D>, q: Path<D>,
      m: Shape<D>)
    requires t.Placed(p, s) && s.Fork? && s.left == Plug(q, m) && m.Fork? && Spine(q)
    requires Recorded(w, Nodes(s)) && t.PathLinked(p, m.entry.head.node)
    requires var n, k := s.entry.head.node, m.entry.head.node;
      && DrawnSpine(w, q, n, k)
      && Drawn(w, m.left, n) && Drawn(w, m.right, n) && Drawn(w, s.right, k)
      && LinksAt(n) == Links(Root(m.left), Root(m.right), if q.Top? then k else ParentOf(q), m.color)
      && LinksAt(k) == Links(Outermost(q, n), Root(s.right), ParentOf(p), s.color)
    ensures t.Focused(p, Swapped(s, q, m))
  {
    hide Apart; hide PathApart; hide Nodes; hide PathNodes; hide Linked; hide HangsFrom; hide Drawn;
    hide DrawnSpine; hide RbTree.PathLinked; hide Plug;
    var n, k := s.entry.head.node, m.entry.head.node;
    var base, m' := InLeft(s.color, m.entry, s.right, p), Fork(m.left, m.color, s.entry, m.right);
    SwapNodes(s, q, m);
    RecordShape(w, m.left, n);
    RecordShape(w, m.right, n);
    RecordShape(w, s.right, k);
    RecordSpine(w, t, q, base, n);
    Reassembled(t, p, s, q, m);
  }

  lemma Reassembled<D(!new)>(t: RbTree<D>, p: Path<D>, s: Shape<D>, q: Path<D>, m: Shape<D>)
    requires t.Placed(p, s) && s.Fork? && s.left == Plug(q, m) && m.Fork? && Spine(q)
    requires t.PathLinked(p, m.entry.head.node)
    requires var n, k := s.entry.head.node, m.entry.head.node;
      && (t.PathLinked(InLeft(s.color, m.entry, s.right, p), Outermost(q, n)) ==>
          t.PathLinked(Append(q, InLeft(s.color, m.entry, s.right, p)), n))
      && Linked(m.left) && HangsFrom(m.left, n) && Linked(m.right) && HangsFrom(m.right, n)
      && Linked(s.right) && HangsFrom(s.right, k)
      && LinksAt(n) == Links(Root(m.left), Root(m.right), if q.Top? then k else ParentOf(q), m.color)
      && LinksAt(k) == Links(Outermost(q, n), Root(s.right), ParentOf(p), s.color)
    ensures t.Focused(p, Swapped(s, q, m))
  {
    var base, m' := InLeft(s.color, m.entry, s.right, p), Fork(m.left, m.color, s.entry, m.right);
    SwapPlaced(t, p, s, q, m);
    FocusAppend(t, q, base, m');
    t.Refocus(base, Swapped(s, q, m).left);
  }

  ghost predicate Within<D(!new)>(n: Node<D>, pred: Node<D>, xs: set<Node<D>>)
    reads n, pred
  {
    && n in xs && pred in xs && n.left in xs && n.right in xs && pred.parent in xs
    && (pred.left != null ==> pred.left in xs) && (pred.right != null ==> pred.right in xs)
  }

  lemma SpineWithin<D(!new)>(s: Shape<D>, q: Path<D>, m: Shape<D>)
    requires s.Fork? && m.Fork? && s.left == Plug(q, m) && Spine(q)
    ensures Outermost(q, m.entry.head.node) in Nodes(s)
    ensures !q.Top? ==> ParentOf(q) in Nodes(s)
    ensures m.left.Fork? ==> Root(m.left) in Nodes(s)
    ensures m.right.Fork? ==> Root(m.right) in Nodes(s)
    ensures s.right.Fork? ==> Root(s.right) in Nodes(s)
  {
    SwapNodes(s, q, m);
    OutermostIn(q, m.entry.head.node);
  }

  /** SwapLinks, with its effect on the nodes xs below and including n written as a record of
      their links before and after. */
  method SwapRecorded<D(!new)>(t: RbTree<D>, n: Node<D>, pred: Node<D>, ghost xs: set<Node<D>>)
    returns (ghost w: map<Node<D>, Links<D>>, ghost w': map<Node<D>, Links<D>>)
    requires Exchangeable(t, n, pred) && n in xs && pred in xs && n.parent !in xs
    modifies t`root
    modifies {n, pred, n.parent, pred.parent}`left, {n, pred, n.parent, pred.parent}`right
    modifies {n, pred, n.left, n.right, pred.left, pred.right}`parent
    modifies {n, pred}`color, n`data
    ensures w == old(map x | x in xs :: LinksAt(x)) && w' == (map x | x in xs :: LinksAt(x))
    ensures Exchanged(w, w', n, pred, xs) && n.data == pred.data
    ensures if old(n.parent) == null then t.root == pred
            else t.root == old(t.root) && Relinked(old(n.parent), n, pred)
  {
    w := map x | x in xs :: LinksAt(x);
    SwapLinks(t, n, pred);
    w' := map x | x in xs :: LinksAt(x);
  }

  /** The same, framed by the whole set xs. */
  method SwapWithin<D(!new)>(t: RbTree<D>, n: Node<D>, pred: Node<D>, ghost xs: set<Node<D>>)
    returns (ghost w: map<Node<D>, Links<D>>, ghost w': map<Node<D>, Links<D>>)
    requires Exchangeable(t, n, pred) && Within(n, pred, xs) && n.parent !in xs
    modifies t`root, {n.parent}`left, {n.parent}`right
    modifies xs`left, xs`right, xs`parent, xs`color, n`data
    ensures w == old(map x | x in xs :: LinksAt(x)) && w' == (map x | x in xs :: LinksAt(x))
    ensures Exchanged(w, w', n, pred, xs) && n.data == pred.data
    ensures if old(n.parent) == null then t.root == pred
            else t.root == old(t.root) && Relinked(old(n.parent), n, pred)
  {
    w, w' := SwapRecorded(t, n, pred, xs);
  }

  /** SwapWithin also redirects the link that leads to n. */
  method SwapAt<D(!new)>(t: RbTree<D>, n: Node<D>, pred: Node<D>, ghost xs: set<Node<D>>, ghost p: Path<D>)
    returns (ghost w: map<Node<D>, Links<D>>, ghost w': map<Node<D>, Links<D>>)
    requires Exchangeable(t, n, pred) && Within(n, pred, xs)
    requires t.PathLinked(p, n) && PathApart(p) && PathNodes(p) <= t.Repr
    requires PathNodes(p) !! xs && n.parent == ParentOf(p)
    modifies t`root, {n.parent}`left, {n.parent}`right
    modifies xs`left, xs`right, xs`parent, xs`color, n`data
    ensures w == old(map x | x in xs :: LinksAt(x)) && w' == (map x | x in xs :: LinksAt(x))
    ensures Exchanged(w, w', n, pred, xs) && n.data == pred.data
    ensures t.PathLinked(p, pred)
  {
    w, w' := SwapWithin(t, n, pred, xs);
  }

  method SwapWithPredecessor<D(!new)>(t: RbTree<D>, n: Node<D>, pred: Node<D>, ghost p: Path<D>, ghost s: Shape<D>,
      ghost q: Path<D>, ghost m: Shape<D>)
    requires t.Focused(p, s) && s.Fork? && s.right.Fork? && n == s.entry.head.node
    requires s.left == Plug(q, m) && m.Fork? && Spine(q) && pred == m.entry.head.node
    modifies t`root, t.Repr`left, t.Repr`right, t.Repr`parent, t.Repr`color, n`data
    ensures t.Focused(p, Swapped(s, q, m))
    ensures n.data == pred.data
  {
    hide Apart; hide PathApart; hide Nodes; hide PathNodes; hide Linked; hide HangsFrom; hide Drawn;
    hide DrawnSpine; hide RbTree.PathLinked; hide Plug;
    ghost var w, w' := map x | x in Nodes(s) :: LinksAt(x), map[];
    ExchangePositions(t, p, s, q, m);
    SwapNodes(s, q, m);
    SpineWithin(s, q, m);
    BeforeExchange(t, w, p, s, q, m);
    assert t.Placed(p, s);
    w, w' := SwapAt(t, n, pred, Nodes(s), p);
    ExchangedSpine(w, w', s, q, m);
    ExchangedSubtree(w, w', s, q, m, m.left, pred);
    ExchangedSubtree(w, w', s, q, m, m.right, pred);
    ExchangedSubtree(w, w', s, q, m, s.right, n);
    AfterExchange(t, w', p, s, q, m);
  }
}
