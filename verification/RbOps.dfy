/** The operations of the tree. */
module RbOps {
  import opened RbShape
  import opened RbTree
  import opened RbRebalance
  import opened RbSwap

  // ---------- removal of one position ----------

  lemma ChildPlaced<D(!new)>(t: RbTree<D>, p: Path<D>, s: Shape<D>)
    requires t.Focused(p, s) && s.Fork?
    ensures t.Placed(p, OnlyChild(s)) && Linked(OnlyChild(s))
  {
  }

  /** Take n, which has at most one child, out of the tree. */
  method Unlink<D(!new)>(t: RbTree<D>, n: Node<D>, ghost p: Path<D>, ghost s: Shape<D>) returns (ghost s': Shape<D>)
    requires t.Focused(p, s) && s.Fork? && n == s.entry.head.node
    requires RedBlack(Plug(p, s)) && (s.left.Leaf? || s.right.Leaf?)
    modifies t`root, t.Repr`left, t.Repr`right, t.Repr`parent, t.Repr`color
    ensures t.Focused(Top, s') && RedBlack(s')
    ensures Entries(s') == Before(p) + Entries(OnlyChild(s)) + After(p)
  {
    hide RbTree.Focused;
    t.Local(p, s);
    OneChild(p, s);
    var child := if n.right != null then n.right else n.left;
    ghost var c := OnlyChild(s);
    ghost var p', s1 := p, s;
    if NodeColor(n) == Black {
      SetColor(t, n, NodeColor(child), p, s);
      s1 := Paint(s, ColorOf(c));
      p' := DeleteCase1(t, n, p, s1, BlackHeight(c));
    }
    t.Local(p', s1);
    ChildPlaced(t, p', s1);
    t.ReplaceNode(n, child, p', s1, c);
    RefilledRules(p', c);
    if n.parent == null && child != null {
      SetColor(t, child, Black, p', c);
      s' := Paint(c, Black);
    } else {
      t.Whole(p', c);
      PlugEntries(p', c);
      s' := Plug(p', c);
    }
  }

  // ---------- search ----------

  ghost predicate AllBelow<D(!new)>(cmp: (D, D) -> int, es: seq<Entry<D>>, key: D) {
    forall e | e in es :: cmp(e.head.data, key) < 0
  }

  ghost predicate AllAbove<D(!new)>(cmp: (D, D) -> int, es: seq<Entry<D>>, key: D) {
    forall e | e in es :: cmp(e.head.data, key) > 0
  }

  ghost predicate At<D(!new)>(cmp: (D, D) -> int, es: seq<Entry<D>>, key: D, k: int) {
    0 <= k < |es| && cmp(es[k].head.data, key) == 0
  }

  ghost function Height<D>(s: Shape<D>): nat {
    if s.Leaf? then 0
    else 1 + if Height(s.left) > Height(s.right) then Height(s.left) else Height(s.right)
  }

  /** How many nodes a search for the key compares. */
  ghost function Comparisons<D(!new)>(cmp: (D, D) -> int, s: Shape<D>, key: D): (n: nat)
    ensures n <= Height(s)
  {
    if s.Leaf? then 0
    else if cmp(s.entry.head.data, key) == 0 then 1
    else 1 + Comparisons(cmp, if cmp(s.entry.head.data, key) > 0 then s.left else s.right, key)
  }

  /** Where the parts of the entry sequence stand. */
  lemma Parts<T>(a: seq<T>, b: seq<T>, x: T, c: seq<T>, d: seq<T>)
    ensures var es := a + (b + [x] + c) + d;
      && |es| == |a| + |b| + 1 + |c| + |d| && es[|a| + |b|] == x
      && (forall i | 0 <= i < |b| :: es[|a| + i] == b[i])
      && (forall i | 0 <= i < |c| :: es[|a| + |b| + 1 + i] == c[i])
  {
  }

  /** One comparison with an entry decides on which side of it the key can be. */
  lemma Decide<D(!new)>(cmp: (D, D) -> int, a: seq<Entry<D>>, b: seq<Entry<D>>, e: Entry<D>, c: seq<Entry<D>>,
      d: seq<Entry<D>>, key: D)
    requires TotalPreorder(cmp) && Ordered(cmp, a + (b + [e] + c) + d)
    ensures cmp(e.head.data, key) > 0 ==> AllAbove(cmp, [e] + c, key)
    ensures cmp(e.head.data, key) < 0 ==> AllBelow(cmp, b + [e], key)
  {
    var es, x := a + (b + [e] + c) + d, e.head.data;
    Parts(a, b, e, c, d);
    forall f | f in c && cmp(x, key) > 0 ensures cmp(f.head.data, key) > 0 {
      var i :| 0 <= i < |c| && c[i] == f;
      assert cmp(es[|a| + |b|].head.data, es[|a| + |b| + 1 + i].head.data) < 0;
    }
    forall f | f in b && cmp(x, key) < 0 ensures cmp(f.head.data, key) < 0 {
      var i :| 0 <= i < |b| && b[i] == f;
      assert cmp(es[|a| + i].head.data, es[|a| + |b|].head.data) < 0;
    }
  }

  lemma Descend<D(!new)>(cmp: (D, D) -> int, p: Path<D>, s: Shape<D>, key: D)
    requires TotalPreorder(cmp) && s.Fork? && Ordered(cmp, AllEntries(p, s))
    ensures cmp(s.entry.head.data, key) > 0 ==> AllAbove(cmp, [s.entry] + Entries(s.right), key)
    ensures cmp(s.entry.head.data, key) < 0 ==> AllBelow(cmp, Entries(s.left) + [s.entry], key)
  {
    hide Ordered; hide TotalPreorder; hide AllAbove; hide AllBelow;
    Decide(cmp, Before(p), Entries(s.left), s.entry, Entries(s.right), After(p), key);
  }

  lemma EntryKnown<D(!new)>(t: RbTree<D>, p: Path<D>, s: Shape<D>)
    requires t.Sound() && Plug(p, s) == t.shape && s.Fork?
    ensures s.entry in Entries(t.shape) && Stored(s.entry) && EntryNodes(s.entry) <= t.Owned()
    ensures s.entry.head.node.data == s.entry.head.data
    ensures Entries(t.shape) == AllEntries(p, s) && Ordered(t.cmp, AllEntries(p, s))
  {
    hide RbTree.Focused; hide Ordered; hide SameKeys; hide Separate; hide Chained; hide Plug;
    PlugEntries(p, s);
    Parts(Before(p), Entries(s.left), s.entry, Entries(s.right), After(p));
  }

  /** Where a key belongs in a sequence of entries: between two of them, or where the entry
      with that key is. */
  datatype Place<D> =
    | Nowhere(before: seq<Entry<D>>, after: seq<Entry<D>>)
    | Between(before: seq<Entry<D>>, entry: Entry<D>, after: seq<Entry<D>>)

  /** Compare one entry after the other, from the first one on. */
  ghost function Locate<D(!new)>(cmp: (D, D) -> int, es: seq<Entry<D>>, key: D): Place<D> {
    if es == [] || cmp(es[0].head.data, key) > 0 then Nowhere([], es)
    else if cmp(es[0].head.data, key) == 0 then Between([], es[0], es[1..])
    else
      match Locate(cmp, es[1..], key)
      case Nowhere(b, a) => Nowhere([es[0]] + b, a)
      case Between(b, e, a) => Between([es[0]] + b, e, a)
  }

  ghost function Spot<D(!new)>(t: RbTree<D>, key: D): Place<D>
    reads t`shape
  {
    Locate(t.cmp, Entries(t.shape), key)
  }

  /** The place of a key that is there, and of one that is not. */
  lemma {:induction false} LocateHit<D(!new)>(cmp: (D, D) -> int, b: seq<Entry<D>>, e: Entry<D>, a: seq<Entry<D>>,
      key: D)
    requires AllBelow(cmp, b, key) && cmp(e.head.data, key) == 0
    ensures Locate(cmp, b + [e] + a, key) == Between(b, e, a)
  {
    var es := b + [e] + a;
    if b == [] {
      assert es == [e] + a;
    } else {
      assert es[1..] == b[1..] + [e] + a && es[0] == b[0] && b[0] in b;
      LocateHit(cmp, b[1..], e, a, key);
      assert [b[0]] + b[1..] == b;
    }
  }

  lemma {:induction false} LocateMiss<D(!new)>(cmp: (D, D) -> int, b: seq<Entry<D>>, a: seq<Entry<D>>, key: D)
    requires AllBelow(cmp, b, key) && AllAbove(cmp, a, key)
    ensures Locate(cmp, b + a, key) == Nowhere(b, a)
  {
    var es := b + a;
    if b == [] {
      assert es == a;
      assert a != [] ==> a[0] in a;
    } else {
      assert es[1..] == b[1..] + a && es[0] == b[0] && b[0] in b;
      LocateMiss(cmp, b[1..], a, key);
      assert [b[0]] + b[1..] == b;
    }
  }

  /** What stands before the position of the key is below it. */
  lemma LeftBelow<D(!new)>(cmp: (D, D) -> int, b: seq<Entry<D>>, e: Entry<D>, a: seq<Entry<D>>, key: D)
    requires TotalPreorder(cmp) && Ordered(cmp, b + [e] + a) && cmp(e.head.data, key) == 0
    ensures AllBelow(cmp, b, key)
  {
    var es, x := b + [e] + a, e.head.data;
    forall f | f in b ensures cmp(f.head.data, key) < 0 {
      var i :| 0 <= i < |b| && b[i] == f;
      assert cmp(es[i].head.data, es[|b|].head.data) < 0;
    }
  }

  /** A search that has arrived at s has found the place of the key. */
  lemma Located<D(!new)>(t: RbTree<D>, p: Path<D>, s: Shape<D>, key: D)
    requires t.Sound() && Plug(p, s) == t.shape
    requires AllBelow(t.cmp, Before(p), key) && AllAbove(t.cmp, After(p), key)
    requires s.Fork? ==> t.cmp(s.entry.head.data, key) == 0
    ensures Spot(t, key) ==
      if s.Fork? then Between(LeftOf(p, s), s.entry, RightOf(p, s)) else Nowhere(Before(p), After(p))
    ensures Entries(t.shape) == if s.Fork? then LeftOf(p, s) + [s.entry] + RightOf(p, s) else Before(p) + After(p)
  {
    hide RbTree.Focused; hide Held; hide AllBelow; hide AllAbove; hide LeftOf; hide RightOf; hide Locate;
    if s.Fork? {
      Sides(p, s);
      LeftBelow(t.cmp, LeftOf(p, s), s.entry, RightOf(p, s), key);
      LocateHit(t.cmp, LeftOf(p, s), s.entry, RightOf(p, s), key);
    } else {
      PlugEntries(p, s);
      assert Before(p) + [] + After(p) == Before(p) + After(p);
      LocateMiss(t.cmp, Before(p), After(p), key);
    }
  }

  lemma Start<D(!new)>(t: RbTree<D>)
    requires t.Sound()
    ensures t.root == Root(t.shape)
  {
  }

  method Lookup<D(!new)>(t: RbTree<D>, key: D)
      returns (n: Node?<D>, ghost p: Path<D>, ghost s: Shape<D>, ghost steps: nat)
    requires t.Sound()
    ensures t.Focused(p, s) && Plug(p, s) == t.shape && n == Root(s)
    ensures AllBelow(t.cmp, Before(p), key) && AllAbove(t.cmp, After(p), key)
    ensures s.Fork? ==> t.cmp(s.entry.head.data, key) == 0
    ensures Spot(t, key) ==
      if s.Fork? then Between(LeftOf(p, s), s.entry, RightOf(p, s)) else Nowhere(Before(p), After(p))
    ensures if Spot(t, key).Nowhere? then n == null else n == Spot(t, key).entry.head.node
    ensures steps == Comparisons(t.cmp, t.shape, key)
  {
    hide RbTree.Focused; hide Ordered; hide Held; hide SameKeys; hide Stored; hide Spot;
    Start(t);
    n, p, s, steps := t.root, Top, t.shape, 0;
    while n != null
      invariant t.Focused(p, s) && Plug(p, s) == t.shape && n == Root(s)
      invariant AllBelow(t.cmp, Before(p), key) && AllAbove(t.cmp, After(p), key)
      invariant steps + Comparisons(t.cmp, s, key) == Comparisons(t.cmp, t.shape, key)
      decreases s
    {
      EntryKnown(t, p, s);
      Descend(t.cmp, p, s, key);
      t.Local(p, s);
      var c := t.cmp(n.data, key);
      steps := steps + 1;
      if c == 0 {
        break;
      } else if c > 0 {
        ghost var q := InLeft(s.color, s.entry, s.right, p);
        t.Refocus(q, s.left);
        n, p, s := n.left, q, s.left;
      } else {
        ghost var q := InRight(s.left, s.color, s.entry, p);
        t.Refocus(q, s.right);
        n, p, s := n.right, q, s.right;
      }
    }
    Located(t, p, s, key);
  }

  lemma FocusedWithin<D(!new)>(t: RbTree<D>, s: Shape<D>)
    requires t.Focused(Top, s)
    ensures Nodes(s) <= t.Repr && t.root == Root(s)
  {
  }

  /** From now on the nodes xs have positions, those of s, and the nodes ys are chained. */
  ghost method Own<D(!new)>(t: RbTree<D>, s: Shape<D>, xs: set<Node<D>>, ys: set<Node<D>>)
    requires t.Focused(Top, s) && Nodes(s) <= xs
    modifies t`Repr, t`Hung, t`shape
    ensures t.Repr == xs && t.Hung == ys && t.shape == s && t.Focused(Top, s)
  {
    t.Repr, t.Hung, t.shape := xs, ys, s;
  }

  // ---------- insertion ----------

  lemma HeldWith<D>(b: seq<Entry<D>>, a: seq<Entry<D>>, e: Entry<D>, xs: set<Node<D>>, ys: set<Node<D>>)
    requires Held(b + a, xs) && xs <= ys && EntryNodes(e) <= ys && EntryNodes(e) !! xs && Simple(e) && Stored(e)
    ensures Held(b + [e] + a, ys)
  {
    hide Stored; hide EntryNodes; hide Simple;
    var es := b + [e] + a;
    forall i, j | 0 <= i < j < |es| ensures EntryNodes(es[i]) !! EntryNodes(es[j]) {
      var i', j' := if i > |b| then i - 1 else i, if j > |b| then j - 1 else j;
      assert i != |b| ==> es[i] == (b + a)[i'];
      assert j != |b| ==> es[j] == (b + a)[j'];
    }
    forall f | f in es ensures Simple(f) && EntryNodes(f) <= ys && Stored(f) {
      assert f == e || f in b + a;
    }
  }

  lemma OrderedWith<D(!new)>(cmp: (D, D) -> int, b: seq<Entry<D>>, a: seq<Entry<D>>, e: Entry<D>)
    requires TotalPreorder(cmp) && Ordered(cmp, b + a)
    requires AllBelow(cmp, b, e.head.data) && AllAbove(cmp, a, e.head.data)
    ensures Ordered(cmp, b + [e] + a)
  {
    var es := b + [e] + a;
    forall i, j | 0 <= i < j < |es| ensures cmp(es[i].head.data, es[j].head.data) < 0 {
      var i', j' := if i > |b| then i - 1 else i, if j > |b| then j - 1 else j;
      assert i != |b| ==> es[i] == (b + a)[i'];
      assert j != |b| ==> es[j] == (b + a)[j'];
    }
  }

  /** An entry with another chain stands at the position of s. */
  ghost function Rechained<D>(s: Shape<D>, chain: seq<Item<D>>): Shape<D>
    requires s.Fork?
  {
    Fork(s.left, s.color, Entry(s.entry.head, chain), s.right)
  }

  lemma HeldWithout<D>(b: seq<Entry<D>>, e: Entry<D>, a: seq<Entry<D>>, xs: set<Node<D>>)
    requires Held(b + [e] + a, xs)
    ensures Held(b + a, xs - EntryNodes(e)) && Stored(e) && Simple(e) && EntryNodes(e) <= xs
  {
    hide Stored; hide EntryNodes; hide Simple;
    var es := b + [e] + a;
    assert es[|b|] == e;
    forall i, j | 0 <= i < j < |b + a| ensures EntryNodes((b + a)[i]) !! EntryNodes((b + a)[j]) {
      var i', j' := if i < |b| then i else i + 1, if j < |b| then j else j + 1;
      assert es[i'] == (b + a)[i] && es[j'] == (b + a)[j];
    }
    forall f | f in b + a ensures Simple(f) && EntryNodes(f) <= xs - EntryNodes(e) && Stored(f) {
      var i :| 0 <= i < |b + a| && (b + a)[i] == f;
      var i' := if i < |b| then i else i + 1;
      assert es[i'] == f && es[|b|] == e && i' != |b|;
    }
  }

  lemma OrderedWithout<D(!new)>(cmp: (D, D) -> int, b: seq<Entry<D>>, e: Entry<D>, a: seq<Entry<D>>)
    requires Ordered(cmp, b + [e] + a)
    ensures Ordered(cmp, b + a)
  {
    var es := b + [e] + a;
    forall i, j | 0 <= i < j < |b + a| ensures cmp((b + a)[i].head.data, (b + a)[j].head.data) < 0 {
      var i', j' := if i < |b| then i else i + 1, if j < |b| then j else j + 1;
      assert es[i'] == (b + a)[i] && es[j'] == (b + a)[j];
    }
  }

  lemma OrderedRechained<D(!new)>(cmp: (D, D) -> int, b: seq<Entry<D>>, e: Entry<D>, e': Entry<D>, a: seq<Entry<D>>)
    requires Ordered(cmp, b + [e] + a) && e'.head.data == e.head.data
    ensures Ordered(cmp, b + [e'] + a)
  {
    var es, es' := b + [e] + a, b + [e'] + a;
    forall i, j | 0 <= i < j < |es'| ensures cmp(es'[i].head.data, es'[j].head.data) < 0 {
      assert cmp(es[i].head.data, es[j].head.data) < 0;
    }
  }

  lemma RechainedRules<D(!new)>(t: RbTree<D>, p: Path<D>, s: Shape<D>, chain: seq<Item<D>>)
    requires t.Focused(p, s) && s.Fork?
    ensures var s' := Plug(p, Rechained(s, chain));
      && t.Focused(Top, s') && (RedBlack(s') <==> RedBlack(Plug(p, s)))
      && Entries(s') == LeftOf(p, s) + [Entry(s.entry.head, chain)] + RightOf(p, s)
  {
    var r := Rechained(s, chain);
    PlugRedBlack(p, s);
    PlugRedBlack(p, r);
    Sides(p, r);
    assert t.Focused(p, r);
    t.Whole(p, r);
  }

  /** The contents of t became b + [e] + a, where b + a were in it before with the nodes xs. */
  lemma Refill<D(!new)>(t: RbTree<D>, b: seq<Entry<D>>, e: Entry<D>, a: seq<Entry<D>>, xs: set<Node<D>>)
    requires TotalPreorder(t.cmp) && t.Focused(Top, t.shape) && Entries(t.shape) == b + [e] + a
    requires Held(b + a, xs) && EntryNodes(e) !! xs && Stored(e) && Simple(e)
    requires xs <= t.Owned() && EntryNodes(e) <= t.Owned() && t.Hanging(b + a) && ChainNodes(e.chain) <= t.Hung
    requires Ordered(t.cmp, b + [e] + a) && SameKeys(t.cmp, b + a) && SameKeys(t.cmp, [e])
    requires !t.multiple ==> e.chain == [] && forall f | f in b + a :: f.chain == []
    ensures t.Sound()
  {
    hide RbTree.Focused; hide Stored; hide Simple; hide EntryNodes; hide Ordered; hide ChainNodes;
    HeldWith(b, a, e, xs, t.Owned());
    forall f | f in b + [e] + a ensures f in b + a || f == e {
    }
  }

  /** What is known of the entry e found at s and of the entries b and a on its sides. */
  ghost predicate Isolated<D(!new)>(t: RbTree<D>, b: seq<Entry<D>>, e: Entry<D>, a: seq<Entry<D>>)
    reads t, t.Repr, t.Hung
  {
    && Entries(t.shape) == b + [e] + a
    && Held(b + a, t.Owned() - EntryNodes(e)) && EntryNodes(e) <= t.Owned() && Simple(e) && Stored(e)
    && t.Hanging(b + a) && ChainNodes(e.chain) <= t.Hung
    && Ordered(t.cmp, b + [e] + a) && SameKeys(t.cmp, b + a) && SameKeys(t.cmp, [e])
    && (!t.multiple ==> e.chain == [] && forall f | f in b + a :: f.chain == [])
  }

  lemma Isolate<D(!new)>(t: RbTree<D>, p: Path<D>, s: Shape<D>)
    requires t.Sound() && Plug(p, s) == t.shape && s.Fork?
    ensures Isolated(t, LeftOf(p, s), s.entry, RightOf(p, s))
  {
    hide RbTree.Focused; hide Ordered; hide Held; hide Stored; hide Simple; hide EntryNodes; hide Entries;
    hide LeftOf; hide RightOf; hide TotalPreorder;
    Sides(p, s);
    HeldWithout(LeftOf(p, s), s.entry, RightOf(p, s), t.Owned());
    forall f | f in LeftOf(p, s) + RightOf(p, s) ensures f in Entries(t.shape) {
    }
  }

  lemma ChainLonger<D>(e: Entry<D>, x: Node<D>, d: D)
    requires Simple(e) && x !in EntryNodes(e)
    ensures var e' := Entry(e.head, [Item(x, d)] + e.chain);
      Simple(e') && EntryNodes(e') == EntryNodes(e) + {x} && e'.chain[1..] == e.chain
  {
    var e' := Entry(e.head, [Item(x, d)] + e.chain);
    assert forall it :: it in e'.chain <==> it == Item(x, d) || it in e.chain;
    assert Item(x, d).node in ChainNodes(e'.chain);
    assert ChainNodes(e'.chain) == ChainNodes(e.chain) + {x};
    forall i, j | 0 <= i < j < |e'.chain| ensures e'.chain[i].node != e'.chain[j].node {
      assert e'.chain[j] == e.chain[j - 1] && e.chain[j - 1].node in ChainNodes(e.chain);
      if i > 0 { assert e'.chain[i] == e.chain[i - 1]; }
    }
  }

  method PushChain<D>(n: Node<D>, x: Node<D>, ghost e: Entry<D>)
    requires Stored(e) && Simple(e) && n == e.head.node && x !in EntryNodes(e)
    modifies x`next, n`next
    ensures Stored(Entry(e.head, [Item(x, x.data)] + e.chain))
  {
    ghost var chain := [Item(x, x.data)] + e.chain;
    x.next := n.next;
    n.next := x;
    forall i | 0 <= i < |chain|
      ensures chain[i].node in ChainNodes(chain) && chain[i].node.data == chain[i].data
      ensures chain[i].node.next == NodeAt(chain, i + 1)
    {
      assert chain[i] in chain;
      if i > 0 { assert chain[i] == e.chain[i - 1] && chain[i].node in ChainNodes(e.chain); }
    }
  }

  method AddToChain<D(!new)>(t: RbTree<D>, n: Node<D>, x: Node<D>, ghost p: Path<D>, ghost s: Shape<D>)
    requires t.Valid() && t.multiple && t.Focused(p, s) && Plug(p, s) == t.shape && s.Fork? && n == s.entry.head.node
    requires x !in t.Owned() && x.color == Red && t.cmp(s.entry.head.data, x.data) == 0
    modifies t`shape, t`Repr, t`Hung, x`next, n`next
    ensures t.Valid() && t.Owned() == old(t.Owned()) + {x}
    ensures Entries(t.shape) ==
      LeftOf(p, s) + [Entry(s.entry.head, [Item(x, x.data)] + s.entry.chain)] + RightOf(p, s)
  {
    hide RbTree.Focused; hide Ordered; hide Held; hide Simple; hide Stored; hide Entries; hide LeftOf; hide RightOf;
    hide TotalPreorder; hide Plug; hide RedBlack;
    ghost var e, b, a, xs := s.entry, LeftOf(p, s), RightOf(p, s), t.Owned() - EntryNodes(s.entry);
    ghost var e' := Entry(e.head, [Item(x, x.data)] + e.chain);
    Isolate(t, p, s);
    RechainedRules(t, p, s, e'.chain);
    OrderedRechained(t.cmp, b, e, e', a);
    ChainLonger(e, x, x.data);
    PushChain(n, x, e);
    ghost var s' := Plug(p, Rechained(s, e'.chain));
    FocusedWithin(t, s');
    Own(t, s', t.Repr, t.Hung + {x});
    Refill(t, b, e', a, xs);
  }

  lemma Alone<D>(e: Entry<D>)
    requires e.chain == [] && e.head.node.data == e.head.data && e.head.node.next == null
    ensures Stored(e) && Simple(e) && EntryNodes(e) == {e.head.node}
  {
  }

  lemma LeafPlaced<D(!new)>(t: RbTree<D>, q: Path<D>, s: Shape<D>)
    requires t.Focused(q, Leaf) && s.Fork? && s.left.Leaf? && s.right.Leaf? && s.entry.head.node !in t.Repr
    ensures PathApart(q) && PathNodes(q) <= t.Repr && t.PathLinked(q, null)
    ensures Apart(s) && Nodes(s) == {s.entry.head.node}
    ensures PathNodes(q) !! Nodes(s) && t.Focused(Top, Plug(q, Leaf)) && Nodes(Plug(q, Leaf)) <= t.Repr
  {
    t.Whole(q, Leaf);
    PlugNodes(q, Leaf);
  }

  /** Hang x, fresh from the allocator, below n on the given side, and rebalance. */
  method AddLeaf<D(!new)>(t: RbTree<D>, n: Node?<D>, x: Node<D>, left: bool, ghost q: Path<D>)
    requires t.Valid() && t.Focused(q, Leaf) && Plug(q, Leaf) == t.shape
    requires n == ParentOf(q) && (q.Top? || left == q.InLeft?)
    requires x !in t.Owned() && x.left == null && x.right == null && x.next == null && x.color == Red
    requires AllBelow(t.cmp, Before(q), x.data) && AllAbove(t.cmp, After(q), x.data)
    modifies t, t.Repr`left, t.Repr`right, t.Repr`parent, t.Repr`color, x`left, x`right, x`parent, x`color
    ensures t.Valid() && t.Owned() == old(t.Owned()) + {x} && t.recycled == old(t.recycled)
    ensures Entries(t.shape) == Before(q) + [Entry(Item(x, x.data), [])] + After(q)
  {
    hide RbTree.Focused; hide Ordered; hide Held; hide Plug; hide RedBlack;
    hide TotalPreorder; hide AllBelow; hide AllAbove;
    hide Stored; hide Simple;
    ghost var e := Entry(Item(x, x.data), []);
    ghost var s, xs := Fork(Leaf, Red, e, Leaf), t.Owned();
    PlugEntries(q, Leaf);
    assert Entries(t.shape) == Before(q) + After(q);
    OrderedWith(t.cmp, Before(q), After(q), e);
    HangLeaf(t, n, x, left, q, s);
    Alone(e);
    Refill(t, Before(q), e, After(q), xs);
  }

  method HangLeaf<D(!new)>(t: RbTree<D>, n: Node?<D>, x: Node<D>, left: bool, ghost q: Path<D>, ghost s: Shape<D>)
    requires t.Focused(q, Leaf) && RedBlack(Plug(q, Leaf)) && x !in t.Repr
    requires s == Fork(Leaf, Red, Entry(Item(x, x.data), []), Leaf)
    requires n == ParentOf(q) && (q.Top? || left == q.InLeft?)
    requires x.left == null && x.right == null && x.color == Red
    modifies t`root, t`shape, t`Repr, t.Repr`left, t.Repr`right, t.Repr`parent, t.Repr`color
    modifies t`Hung, x`left, x`right, x`parent, x`color
    ensures t.Focused(Top, t.shape) && RedBlack(t.shape)
    ensures Entries(t.shape) == Before(q) + [s.entry] + After(q)
    ensures t.Repr == old(t.Repr) + {x} && t.Hung == old(t.Hung)
  {
    hide RbTree.Focused; hide RedBlack; hide Plug; hide NewRed;
    NewLeaf(q, s);
    LeafPlaced(t, q, s);
    Own(t, Plug(q, Leaf), t.Repr + {x}, t.Hung);
    t.Hang(x, n, left, null, q, s);
    t.shape := InsertCase1(t, x, q, s);
  }

  lemma NewLeaf<D>(q: Path<D>, s: Shape<D>)
    requires s.Fork? && s.left.Leaf? && s.right.Leaf? && s.color == Red && RedBlack(Plug(q, Leaf))
    ensures NewRed(q, s) && AllEntries(q, s) == Before(q) + [s.entry] + After(q)
  {
    PlugRedBlack(q, Leaf);
    assert Entries(s) == [s.entry];
  }

  /** Follow the comparisons from the root to the node holding the key, or to the node whose
      missing child is the place for it; c is the last comparison. */
  method FindPlace<D(!new)>(t: RbTree<D>, key: D) returns (c: int, n: Node<D>, ghost p: Path<D>, ghost s: Shape<D>)
    requires t.Sound() && t.root != null
    ensures t.Focused(p, s) && Plug(p, s) == t.shape && s.Fork? && n == s.entry.head.node
    ensures c == t.cmp(s.entry.head.data, key) && n in t.Repr
    ensures c > 0 ==> s.left.Leaf? && AllAbove(t.cmp, After(Side(p, s, c)), key)
    ensures c < 0 ==> s.right.Leaf? && AllBelow(t.cmp, Before(Side(p, s, c)), key)
    ensures AllBelow(t.cmp, Before(p), key) && AllAbove(t.cmp, After(p), key)
  {
    hide RbTree.Focused; hide Ordered; hide Held; hide SameKeys; hide Stored;
    Start(t);
    n, p, s := t.root, Top, t.shape;
    while true
      invariant t.Focused(p, s) && Plug(p, s) == t.shape && s.Fork? && n == s.entry.head.node
      invariant AllBelow(t.cmp, Before(p), key) && AllAbove(t.cmp, After(p), key)
      decreases s
    {
      EntryKnown(t, p, s);
      Descend(t.cmp, p, s, key);
      t.Local(p, s);
      c := t.cmp(n.data, key);
      ghost var q := Side(p, s, c);
      if c == 0 {
        break;
      } else if c > 0 {
        if n.left == null { break; }
        t.Refocus(q, s.left);
        n, p, s := n.left, q, s.left;
      } else {
        if n.right == null { break; }
        t.Refocus(q, s.right);
        n, p, s := n.right, q, s.right;
      }
    }
  }

  /** The way to the left child of s if c is positive, to the right one otherwise. */
  ghost function Side<D>(p: Path<D>, s: Shape<D>, c: int): Path<D>
    requires s.Fork?
  {
    if c > 0 then InLeft(s.color, s.entry, s.right, p) else InRight(s.left, s.color, s.entry, p)
  }

  /** Insert a node that is not in the tree and whose links are zero. */
  method Insert<D(!new)>(t: RbTree<D>, x: Node<D>) returns (ret: int)
    requires t.Valid() && x !in t.Owned()
    requires x.left == null && x.right == null && x.parent == null && x.next == null
    modifies t, t.Repr, t.Hung, x
    ensures t.Valid() && t.recycled == old(t.recycled) && x.data == old(x.data)
    ensures ret == if old(Spot(t, x.data)).Between? && !t.multiple then -1 else 0
    ensures t.Owned() == if ret == 0 then old(t.Owned()) + {x} else old(t.Owned())
    ensures var at := old(Spot(t, x.data));
      && (at.Nowhere? ==> Entries(t.shape) == at.before + [Entry(Item(x, x.data), [])] + at.after)
      && (at.Between? && t.multiple ==>
            Entries(t.shape) == at.before + [Entry(at.entry.head, [Item(x, x.data)] + at.entry.chain)] + at.after)
      && (at.Between? && !t.multiple ==> t.shape == old(t.shape))
  {
    hide RbTree.Focused; hide RbTree.Valid; hide RbTree.Sound; hide Plug; hide Entries; hide AllBelow; hide AllAbove;
    hide Spot;
    ret := 0;
    x.color := Red;
    ValidSound(t);
    if t.root == null {
      Empty(t, x.data);
      Located(t, Top, Leaf, x.data);
      AddLeaf(t, null, x, false, Top);
    } else {
      var c, n, p, s := FindPlace(t, x.data);
      if c == 0 {
        Located(t, p, s, x.data);
        if t.multiple {
          AddToChain(t, n, x, p, s);
        } else {
          ret := -1;
        }
      } else {
        ghost var q := Side(p, s, c);
        LeafSide(t, p, s, c);
        Located(t, q, Leaf, x.data);
        AddLeaf(t, n, x, c > 0, q);
      }
    }
  }

  lemma LeafSide<D(!new)>(t: RbTree<D>, p: Path<D>, s: Shape<D>, c: int)
    requires t.Focused(p, s) && s.Fork? && (if c > 0 then s.left.Leaf? else s.right.Leaf?)
    ensures var q := Side(p, s, c);
      && t.Focused(q, Leaf) && Plug(q, Leaf) == Plug(p, s) && ParentOf(q) == Root(s)
      && Entries(Plug(p, s)) == Before(q) + After(q)
  {
    t.Refocus(Side(p, s, c), Leaf);
    PlugEntries(Side(p, s, c), Leaf);
  }

  lemma ValidSound<D(!new)>(t: RbTree<D>)
    requires t.Valid()
    ensures t.Sound() && t.Focused(Top, t.shape) && t.root == Root(t.shape) && TotalPreorder(t.cmp)
    ensures Plug(Top, t.shape) == t.shape && RedBlack(t.shape)
  {
  }

  lemma Empty<D(!new)>(t: RbTree<D>, key: D)
    requires t.Sound() && t.root == null
    ensures t.shape == Leaf && Entries(t.shape) == []
    ensures AllBelow(t.cmp, Before<D>(Top), key) && AllAbove(t.cmp, After<D>(Top), key)
    ensures Before<D>(Top) == [] && After<D>(Top) == []
  {
  }

  // ---------- erasing ----------

  lemma OneSided<D>(p: Path<D>, s: Shape<D>)
    requires s.Fork? && (s.left.Leaf? || s.right.Leaf?)
    ensures Before(p) + Entries(OnlyChild(s)) + After(p) == LeftOf(p, s) + RightOf(p, s)
  {
  }

  /** What remains when the node is taken out at the position of its predecessor. */
  lemma SwappedSides<D>(p: Path<D>, s: Shape<D>, q: Path<D>, m: Shape<D>)
    requires s.Fork? && m.Fork? && m.right.Leaf? && s.left == Plug(q, m) && Spine(q)
    ensures var q', m' := Append(q, InLeft(s.color, m.entry, s.right, p)), Fork(m.left, m.color, s.entry, m.right);
      && OnlyChild(m') == m.left && Plug(q', m') == Plug(p, Swapped(s, q, m))
      && Before(q') + Entries(m.left) + After(q') == LeftOf(p, s) + RightOf(p, s)
  {
    var base := InLeft(s.color, m.entry, s.right, p);
    AppendPlug(q, base, Fork(m.left, m.color, s.entry, m.right));
    AppendSides(q, base);
    SpineAfter(q);
    PlugEntries(q, m);
    assert Entries(s.left) == Before(q) + Entries(m.left) + [m.entry];
    assert After(Append(q, base)) == [m.entry] + Entries(s.right) + After(p);
    Unfolded(Before(p), Before(q), Entries(m.left), [m.entry], Entries(s.right), After(p));
  }

  lemma Unfolded<T>(a: seq<T>, b: seq<T>, c: seq<T>, d: seq<T>, e: seq<T>, f: seq<T>)
    ensures (a + b) + c + (d + e + f) == (a + (b + c + d)) + (e + f)
  {
  }

  method EraseNode<D(!new)>(t: RbTree<D>, n: Node<D>, ghost p: Path<D>, ghost s: Shape<D>) returns (ghost s': Shape<D>)
    requires t.Focused(p, s) && s.Fork? && n == s.entry.head.node && RedBlack(Plug(p, s))
    modifies t`root, t.Repr`left, t.Repr`right, t.Repr`parent, t.Repr`color, n`data
    ensures t.Focused(Top, s') && RedBlack(s')
    ensures Entries(s') == LeftOf(p, s) + RightOf(p, s)
    ensures s.left.Leaf? ==> n.data == old(n.data)
  {
    hide RbTree.Focused; hide RedBlack; hide Entries; hide LeftOf; hide RightOf; hide Spine; hide Append;
    t.Local(p, s);
    if n.left != null && n.right != null {
      ghost var base := InLeft(s.color, s.entry, s.right, p);
      t.Refocus(base, s.left);
      var pred, q, m := MaximumNode(t, n.left, base, s.left);
      SwapKeepsRules(p, s, q, m);
      SwappedSides(p, s, q, m);
      SwapWithPredecessor(t, n, pred, p, s, q, m);
      ghost var s2 := Fork(m.left, m.color, s.entry, m.right);
      ghost var p2 := Append(q, InLeft(s.color, m.entry, s.right, p));
      SwapFocus(t, p, s, q, m);
      s' := Unlink(t, n, p2, s2);
    } else {
      OneSided(p, s);
      s' := Unlink(t, n, p, s);
    }
  }

  lemma SwapFocus<D(!new)>(t: RbTree<D>, p: Path<D>, s: Shape<D>, q: Path<D>, m: Shape<D>)
    requires s.Fork? && m.Fork? && t.Focused(p, Swapped(s, q, m))
    ensures t.Focused(Append(q, InLeft(s.color, m.entry, s.right, p)), Fork(m.left, m.color, s.entry, m.right))
  {
    hide RbTree.Focused;
    var base, m' := InLeft(s.color, m.entry, s.right, p), Fork(m.left, m.color, s.entry, m.right);
    t.Refocus(base, Plug(q, m'));
    FocusAppend(t, q, base, m');
  }

  /** The contents are what was on both sides of an isolated entry. */
  lemma Remain<D(!new)>(t: RbTree<D>, b: seq<Entry<D>>, e: Entry<D>, a: seq<Entry<D>>)
    requires TotalPreorder(t.cmp) && t.Focused(Top, t.shape)
    requires Entries(t.shape) == b + a && Held(b + a, t.Owned()) && t.Hanging(b + a)
    requires Ordered(t.cmp, b + [e] + a) && SameKeys(t.cmp, b + a)
    requires !t.multiple ==> forall f | f in b + a :: f.chain == []
    ensures t.Sound()
  {
    OrderedWithout(t.cmp, b, e, a);
  }

  lemma HeadsHeld<D>(s: Shape<D>, xs: set<Node<D>>)
    requires Held(Entries(s), xs)
    ensures Nodes(s) <= xs
  {
    HeadsWithin(s, xs);
  }

  /** Zero the node and queue it for reuse. */
  method Recycle<D(!new)>(t: RbTree<D>, n: Node<D>)
    modifies t`recycled, n
    ensures t.recycled == old(t.recycled) + [n]
    ensures n.left == null && n.right == null && n.parent == null && n.next == null
    ensures n.color == Red && n.data == t.zero
  {
    n.left, n.right, n.parent, n.next := null, null, null, null;
    n.color, n.data := Red, t.zero;
    t.recycled := t.recycled + [n];
  }

  lemma ChainsWithin<D(!new)>(t: RbTree<D>, es: seq<Entry<D>>, xs: set<Node<D>>)
    requires Held(es, xs) && t.Hanging(es)
    ensures forall e | e in es :: ChainNodes(e.chain) <= t.Hung * xs
  {
  }

  /** Take the entry found at s out of the tree. */
  method TakeOut<D(!new)>(t: RbTree<D>, n: Node<D>, ghost p: Path<D>, ghost s: Shape<D>)
    requires t.Valid() && t.Focused(p, s) && Plug(p, s) == t.shape && s.Fork? && n == s.entry.head.node
    modifies t`root, t`Repr, t`Hung, t`shape, t.Repr`left, t.Repr`right, t.Repr`parent, t.Repr`color, n`data
    ensures t.Valid() && t.Owned() == old(t.Owned()) - EntryNodes(s.entry)
    ensures Entries(t.shape) == LeftOf(p, s) + RightOf(p, s)
    ensures s.left.Leaf? ==> n.data == old(n.data)
  {
    hide RbTree.Focused; hide Entries; hide LeftOf; hide RightOf; hide Held;
    hide Ordered; hide Plug; hide TotalPreorder;
    hide RedBlack; hide Stored; hide Simple;
    ghost var b, e, a, xs := LeftOf(p, s), s.entry, RightOf(p, s), t.Owned() - EntryNodes(s.entry);
    Isolate(t, p, s);
    ChainsWithin(t, b + a, xs);
    ghost var s' := EraseNode(t, n, p, s);
    HeadsHeld(s', xs);
    FocusedWithin(t, s');
    Own(t, s', t.Repr - EntryNodes(e), t.Hung - EntryNodes(e));
    assert t.Owned() == xs;
    Remain(t, b, e, a);
  }

  /** The entry found at s, and the position of its node in the tree. */
  lemma FoundEntry<D(!new)>(t: RbTree<D>, p: Path<D>, s: Shape<D>)
    requires t.Sound() && Plug(p, s) == t.shape && s.Fork?
    ensures Entries(t.shape) == LeftOf(p, s) + [s.entry] + RightOf(p, s)
    ensures s.entry.head.node in EntryNodes(s.entry) && EntryNodes(s.entry) <= t.Owned()
  {
    hide RbTree.Focused;
    Isolate(t, p, s);
  }

  lemma ChainCounts<D(!new)>(t: RbTree<D>, p: Path<D>, s: Shape<D>)
    requires t.Sound() && Plug(p, s) == t.shape && s.Fork?
    ensures !t.multiple ==> s.entry.chain == []
    ensures EntryNodes(s.entry) == {s.entry.head.node} <==> s.entry.chain == []
  {
    hide RbTree.Focused;
    Isolate(t, p, s);
    ChainLost(s.entry);
    EntryKnown(t, p, s);
  }

  /** The head is the only node of an entry exactly if nothing is chained to it. */
  lemma ChainLost<D>(e: Entry<D>)
    requires Simple(e)
    ensures EntryNodes(e) == {e.head.node} <==> e.chain == []
  {
    if e.chain != [] {
      assert e.chain[0] in e.chain && e.chain[0].node in ChainNodes(e.chain);
    }
  }

  /** Erase the key with all nodes chained to it.  Only the node that was in the tree goes back
      to the allocator: zeroing it cuts the chain before the loop can follow it. */
  method Erase<D(!new)>(t: RbTree<D>, key: D) returns (ret: int)
    requires t.Valid()
    modifies t, t.Repr, t.Hung
    ensures t.Valid()
    ensures ret == if old(Spot(t, key)).Nowhere? then -1 else 0
    ensures old(Spot(t, key)).Nowhere? ==>
      t.shape == old(t.shape) && t.Owned() == old(t.Owned()) && t.recycled == old(t.recycled)
    ensures old(Spot(t, key)).Between? ==>
      var at := old(Spot(t, key));
      var n := at.entry.head.node;
      && Entries(t.shape) == at.before + at.after && t.Owned() == old(t.Owned()) - EntryNodes(at.entry)
      && t.recycled == old(t.recycled) + [n] && n.next == null && n.data == t.zero
      && (old(t.Owned()) == t.Owned() + {n} <==> at.entry.chain == []) && (!t.multiple ==> at.entry.chain == [])
  {
    hide RbTree.Focused; hide RbTree.Valid; hide RbTree.Sound; hide Entries; hide LeftOf; hide RightOf; hide Plug;
    hide AllAbove; hide AllBelow; hide ChainNodes; hide Spot;
    ValidSound(t);
    var found, p, s, steps := Lookup(t, key);
    if found == null {
      return -1;
    }
    FoundEntry(t, p, s);
    ChainCounts(t, p, s);
    TakeOut(t, found, p, s);
    ghost var left := t.Owned();
    var n: Node?<D> := found;
    while n != null
      invariant n == null || n == found
      invariant t.Valid() && Entries(t.shape) == LeftOf(p, s) + RightOf(p, s) && t.Owned() == left
      invariant n == found ==> t.recycled == old(t.recycled)
      invariant n == null ==> t.recycled == old(t.recycled) + [found] && found.next == null && found.data == t.zero
      decreases if n == null then 0 else 1
    {
      Recycle(t, n);
      n := n.next;
    }
    ret := 0;
  }

  /** get minimum: follow left links from the root. */
  method Leftmost<D(!new)>(t: RbTree<D>) returns (n: Node<D>, ghost p: Path<D>, ghost s: Shape<D>)
    requires t.Sound() && t.root != null
    ensures t.Focused(p, s) && Plug(p, s) == t.shape && s.Fork? && n == s.entry.head.node
    ensures s.left.Leaf? && LeftOf(p, s) == []
  {
    hide RbTree.Focused;
    Start(t);
    n, p, s := t.root, Top, t.shape;
    t.Local(p, s);
    while n.left != null
      invariant t.Focused(p, s) && Plug(p, s) == t.shape && s.Fork? && n == s.entry.head.node && n.left == Root(s.left)
      invariant Before(p) == []
      decreases s
    {
      ghost var q := InLeft(s.color, s.entry, s.right, p);
      t.Refocus(q, s.left);
      t.Local(q, s.left);
      n, p, s := n.left, q, s.left;
    }
  }

  /** Remove the first node in order, together with its chain, if the condition allows it. */
  method PopFront<D(!new)>(t: RbTree<D>, condition: D -> bool) returns (ret: int, node: Node?<D>)
    requires t.Valid()
    modifies t, t.Repr, t.Hung
    ensures t.Valid() && t.recycled == old(t.recycled)
    ensures ret == 0 <==> old(Entries(t.shape)) != [] && condition(old(Entries(t.shape))[0].head.data)
    ensures ret != 0 ==> ret == -1 && node == null && t.shape == old(t.shape) && t.Owned() == old(t.Owned())
    ensures ret == 0 ==> var e := old(Entries(t.shape))[0];
      node == e.head.node && Stored(e) && t.Owned() == old(t.Owned()) - EntryNodes(e)
      && Entries(t.shape) == old(Entries(t.shape))[1..]
    ensures ret == 0 ==> node.left == null && node.right == null && node.parent == null
  {
    hide RbTree.Focused; hide RbTree.Valid; hide RbTree.Sound; hide Stored; hide ChainNodes; hide Plug; hide Entries;
    ValidSound(t);
    if t.root == null {
      Empty(t, t.zero);
      return -1, null;
    }
    var n, p, s := Leftmost(t);
    EntryKnown(t, p, s);
    FoundEntry(t, p, s);
    assert Entries(t.shape) == [s.entry] + RightOf(p, s);
    if !condition(n.data) {
      return -1, null;
    }
    TakeOut(t, n, p, s);
    node := n;
    node.left, node.right, node.parent := null, null, null;
    ret := 0;
  }

  // ---------- erasing one of several nodes with the same key ----------

  ghost function ItemsOf<D>(e: Entry<D>): seq<Item<D>> {
    [e.head] + e.chain
  }

  /** The items without the first one accepted. */
  ghost function WithoutFirst<D>(items: seq<Item<D>>, accepts: Item<D> -> bool): seq<Item<D>> {
    if items == [] then []
    else if accepts(items[0]) then items[1..]
    else [items[0]] + WithoutFirst(items[1..], accepts)
  }

  /** An entry for each nonempty run of items. */
  ghost function EntryOf<D>(items: seq<Item<D>>): seq<Entry<D>> {
    if items == [] then [] else [Entry(items[0], items[1..])]
  }

  lemma {:induction false} FirstAt<D>(items: seq<Item<D>>, accepts: Item<D> -> bool, i: nat)
    requires i <= |items| && forall j | 0 <= j < i :: !accepts(items[j])
    ensures i == |items| ==> WithoutFirst(items, accepts) == items
    ensures i < |items| && accepts(items[i]) ==> WithoutFirst(items, accepts) == items[..i] + items[i + 1..]
  {
    if i > 0 {
      FirstAt(items[1..], accepts, i - 1);
      assert items == [items[0]] + items[1..];
      if i < |items| {
        assert items[1..][..i - 1] == items[1..i] && items[1..][i..] == items[i + 1..];
        assert [items[0]] + items[1..i] == items[..i];
      }
    }
  }

  ghost function Cut<T>(s: seq<T>, i: nat): (r: seq<T>)
    requires i < |s|
    ensures |r| == |s| - 1
    ensures forall j | 0 <= j < |r| :: r[j] == s[if j < i then j else j + 1]
  {
    s[..i] + s[i + 1..]
  }

  lemma CutNodes<D>(e: Entry<D>, i: nat)
    requires Simple(e) && i < |e.chain|
    ensures Simple(Entry(e.head, Cut(e.chain, i)))
    ensures EntryNodes(Entry(e.head, Cut(e.chain, i))) == EntryNodes(e) - {e.chain[i].node}
    ensures ChainNodes(Cut(e.chain, i)) == ChainNodes(e.chain) - {e.chain[i].node}
    ensures e.chain[i].node in ChainNodes(e.chain)
  {
    hide Cut;
    var chain := Cut(e.chain, i);
    forall x | x in ChainNodes(chain) ensures x in ChainNodes(e.chain) && x != e.chain[i].node {
      var j :| 0 <= j < |chain| && chain[j].node == x;
    }
    forall x | x in ChainNodes(e.chain) && x != e.chain[i].node ensures x in ChainNodes(chain) {
      var j :| 0 <= j < |e.chain| && e.chain[j].node == x;
      assert chain[if j < i then j else j - 1].node == x;
    }
  }

  lemma CutItems<D>(e: Entry<D>, i: nat)
    requires i < |e.chain|
    ensures ItemsOf(Entry(e.head, Cut(e.chain, i))) == ItemsOf(e)[..i + 1] + ItemsOf(e)[i + 2..]
  {
  }

  /** One step along the items of an entry. */
  lemma ItemLink<D>(e: Entry<D>, i: nat)
    requires Stored(e) && i <= |e.chain|
    ensures var it := ItemsOf(e)[i]; it.node.data == it.data && it.node.next == NodeAt(ItemsOf(e), i + 1)
  {
    if i > 0 {
      assert ItemsOf(e)[i] == e.chain[i - 1] && e.chain[i - 1].node in ChainNodes(e.chain);
    }
  }

  /** The links are those of the entry but for one that leads past item i of the chain. */
  lemma CutStored<D>(e: Entry<D>, i: nat)
    requires i < |e.chain|
    requires forall k: nat | k <= |e.chain| ::
      var it := ItemsOf(e)[k];
      it.node.data == it.data && it.node.next == NodeAt(ItemsOf(e), if k == i then k + 2 else k + 1)
    ensures Stored(Entry(e.head, Cut(e.chain, i)))
  {
    hide Cut;
    var chain, items := Cut(e.chain, i), ItemsOf(e);
    assert items[0] == e.head;
    forall j | 0 <= j < |chain|
      ensures chain[j].node in ChainNodes(chain) && chain[j].node.data == chain[j].data
      ensures chain[j].node.next == NodeAt(chain, j + 1)
    {
      assert chain[j] == items[if j < i then j + 1 else j + 2] && chain[j] in chain;
    }
  }

  /** Items of an entry are different nodes. */
  lemma ItemsDiffer<D>(e: Entry<D>, j: nat, k: nat)
    requires Simple(e) && j < k <= |e.chain|
    ensures ItemsOf(e)[j].node != ItemsOf(e)[k].node
  {
    assert e.chain[k - 1] in e.chain && e.chain[k - 1].node in ChainNodes(e.chain);
  }

  /** prev->next = child->next, where child is item i of the chain. */
  method CutChain<D>(prev: Node<D>, child: Node<D>, ghost e: Entry<D>, ghost i: nat)
    requires Stored(e) && Simple(e) && i < |e.chain| && child == e.chain[i].node && prev == ItemsOf(e)[i].node
    modifies prev`next
    ensures Stored(Entry(e.head, Cut(e.chain, i)))
  {
    hide Stored; hide Simple; hide Cut;
    forall k: nat | k <= |e.chain|
      ensures ItemsOf(e)[k].node.data == ItemsOf(e)[k].data && ItemsOf(e)[k].node.next == NodeAt(ItemsOf(e), k + 1)
      ensures k != i ==> ItemsOf(e)[k].node != prev
    {
      ItemLink(e, k);
      if k < i { ItemsDiffer(e, k, i); }
      if i < k { ItemsDiffer(e, i, k); }
    }
    assert child == ItemsOf(e)[i + 1].node;
    prev.next := child.next;
    CutStored(e, i);
  }

  lemma CutKeys<D(!new)>(cmp: (D, D) -> int, e: Entry<D>, i: nat)
    requires i < |e.chain| && SameKeys(cmp, [e])
    ensures SameKeys(cmp, [Entry(e.head, Cut(e.chain, i))])
  {
    assert e in [e];
  }

  lemma HeadsBut<D>(s: Shape<D>, b: seq<Entry<D>>, e: Entry<D>, a: seq<Entry<D>>, xs: set<Node<D>>)
    requires Entries(s) == b + [e] + a && Held(b + a, xs)
    ensures Nodes(s) <= xs + {e.head.node}
  {
    forall f | f in Entries(s) ensures f.head.node in xs + {e.head.node} {
      assert f == e || f in b + a;
    }
    HeadsWithin(s, xs + {e.head.node});
  }

  lemma ChainMember<D>(e: Entry<D>, i: nat)
    requires Simple(e) && i < |e.chain|
    ensures e.chain[i].node in ChainNodes(e.chain) && e.chain[i].node != e.head.node && e.chain[i].node in EntryNodes(e)
    ensures ItemsOf(e)[i].node in EntryNodes(e)
  {
    assert e.chain[i] in e.chain;
    if i > 0 { assert e.chain[i - 1] in e.chain && ItemsOf(e)[i] == e.chain[i - 1]; }
  }

  /** Take item i of the chain found at s out of it. */
  method TakeFromChain<D(!new)>(t: RbTree<D>, prev: Node<D>, child: Node<D>, ghost p: Path<D>, ghost s: Shape<D>,
      ghost i: nat)
    requires t.Valid() && t.Focused(p, s) && Plug(p, s) == t.shape && s.Fork?
    requires i < |s.entry.chain| && child == s.entry.chain[i].node && prev == ItemsOf(s.entry)[i].node
    modifies t`shape, t`Repr, t`Hung, prev`next
    ensures t.Valid() && t.Owned() == old(t.Owned()) - {child}
    ensures Entries(t.shape) == LeftOf(p, s) + [Entry(s.entry.head, Cut(s.entry.chain, i))] + RightOf(p, s)
  {
    hide RbTree.Focused; hide Ordered; hide Held; hide Simple; hide Stored; hide Entries; hide LeftOf; hide RightOf;
    hide TotalPreorder; hide Plug; hide RedBlack; hide ChainNodes;
    ghost var e, b, a, xs := s.entry, LeftOf(p, s), RightOf(p, s), t.Owned() - EntryNodes(s.entry);
    ghost var e' := Entry(e.head, Cut(e.chain, i));
    Isolate(t, p, s);
    CutNodes(e, i);
    RechainedRules(t, p, s, e'.chain);
    OrderedRechained(t.cmp, b, e, e', a);
    CutKeys(t.cmp, e, i);
    ChainMember(e, i);
    ChainsWithin(t, b + a, xs);
    CutChain(prev, child, e, i);
    ghost var s' := Plug(p, Rechained(s, e'.chain));
    FocusedWithin(t, s');
    Own(t, s', t.Repr, t.Hung - {child});
    Refill(t, b, e', a, xs);
  }

  /** The children of n become the children of child. */
  method AdoptChildren<D>(n: Node<D>, child: Node<D>, ghost s: Shape<D>, ghost e: Entry<D>)
    requires Linked(s) && Apart(s) && s.Fork? && n == s.entry.head.node
    requires child == e.head.node && child !in Nodes(s)
    modifies child`left, child`right, {n.left}`parent, {n.right}`parent
    ensures Linked(Fork(s.left, child.color, e, s.right))
  {
    child.left := n.left;
    if n.left != null {
      n.left.parent := child;
    }
    child.right := n.right;
    if n.right != null {
      n.right.parent := child;
    }
  }

  lemma PromotionPlaced<D(!new)>(t: RbTree<D>, p: Path<D>, s: Shape<D>, s': Shape<D>)
    requires t.Focused(p, s) && s.Fork? && s'.Fork? && s'.left == s.left && s'.right == s.right
    requires s'.entry.head.node in t.Repr && s'.entry.head.node !in PathNodes(p) + Nodes(s)
    ensures t.Placed(p, s') && t.PathLinked(p, s.entry.head.node) && PathApart(p) && Linked(s) && Apart(s)
    ensures s.entry.head.node !in PathNodes(p) && s'.entry.head.node !in PathNodes(p)
    ensures s.left.Fork? ==> Root(s.left) !in PathNodes(p) && Root(s.left) in t.Repr
    ensures s.right.Fork? ==> Root(s.right) !in PathNodes(p) && Root(s.right) in t.Repr
    ensures PathNodes(p) <= t.Repr
    ensures !p.Top? ==> ParentOf(p) in PathNodes(p)
  {
  }

  /** The links of n pass to child, which was only chained to it. */
  method PromoteLinks<D(!new)>(t: RbTree<D>, n: Node<D>, child: Node<D>, ghost p: Path<D>, ghost s: Shape<D>,
      ghost e: Entry<D>)
    requires t.Focused(p, s) && s.Fork? && n == s.entry.head.node
    requires child == e.head.node && child in t.Repr && child !in PathNodes(p) + Nodes(s)
    modifies t`root, t.Repr`left, t.Repr`right, t.Repr`parent
    ensures t.Focused(p, Fork(s.left, child.color, e, s.right))
  {
    hide RbTree.Focused; hide RbTree.PathLinked; hide RbTree.Placed; hide Linked; hide Apart;
    hide PathApart; hide PathNodes; hide Nodes;
    ghost var s' := Fork(s.left, child.color, e, s.right);
    t.Local(p, s);
    PromotionPlaced(t, p, s, s');
    AdoptChildren(n, child, s, e);
    assert t.PathLinked(p, n);
    t.Hang(child, n.parent, n.parent != null && n.parent.left == n, n, p, s');
  }

  ghost function Promoted<D>(e: Entry<D>): Entry<D>
    requires e.chain != []
  {
    Entry(e.chain[0], e.chain[1..])
  }

  lemma PromotedChain<D>(e: Entry<D>)
    requires Simple(e) && e.chain != []
    ensures ChainNodes(e.chain[1..]) == ChainNodes(e.chain) - {e.chain[0].node}
    ensures e.chain[0].node in ChainNodes(e.chain)
  {
    var c := e.chain[1..];
    forall x | x in ChainNodes(e.chain) ensures x == e.chain[0].node || x in ChainNodes(c) {
      var j :| 0 <= j < |e.chain| && e.chain[j].node == x;
      if j > 0 { assert c[j - 1].node == x && c[j - 1] in c; }
    }
    forall x | x in ChainNodes(c) ensures x in ChainNodes(e.chain) && x != e.chain[0].node {
      var j :| 0 <= j < |c| && c[j].node == x;
      assert e.chain[j + 1].node == x && e.chain[j + 1] in e.chain;
    }
    assert e.chain[0] in e.chain;
  }

  lemma PromotedStored<D>(e: Entry<D>)
    requires Stored(e) && e.chain != []
    ensures Stored(Promoted(e)) && e.head.node.next == e.chain[0].node
  {
    var c := e.chain[1..];
    forall j | 0 <= j < |c|
      ensures c[j].node in ChainNodes(c) && c[j].node.data == c[j].data && c[j].node.next == NodeAt(c, j + 1)
    {
      assert c[j] == e.chain[j + 1] && c[j] in c;
    }
  }

  lemma PromotedEntry<D>(e: Entry<D>)
    requires Simple(e) && Stored(e) && e.chain != []
    ensures Simple(Promoted(e)) && Stored(Promoted(e)) && EntryNodes(Promoted(e)) == EntryNodes(e) - {e.head.node}
    ensures ChainNodes(Promoted(e).chain) == ChainNodes(e.chain) - {e.chain[0].node}
    ensures e.head.node.next == e.chain[0].node && e.chain[0].node in EntryNodes(e)
  {
    hide Stored; hide ChainNodes;
    PromotedChain(e);
    PromotedStored(e);
  }

  lemma PromotedOrder<D(!new)>(cmp: (D, D) -> int, b: seq<Entry<D>>, e: Entry<D>, a: seq<Entry<D>>)
    requires TotalPreorder(cmp) && Ordered(cmp, b + [e] + a) && SameKeys(cmp, [e]) && e.chain != []
    ensures Ordered(cmp, b + [Promoted(e)] + a) && SameKeys(cmp, [Promoted(e)])
  {
    var es, es', h, c := b + [e] + a, b + [Promoted(e)] + a, e.head.data, e.chain[0].data;
    assert e in [e] && e.chain[0] in e.chain && cmp(h, c) == 0 && cmp(c, h) == 0;
    forall i, j | 0 <= i < j < |es'| ensures cmp(es'[i].head.data, es'[j].head.data) < 0 {
      assert cmp(es[i].head.data, es[j].head.data) < 0;
      if j == |b| { Exchange(cmp, es[i].head.data, h, c); }
      if i == |b| { Exchange(cmp, es[j].head.data, h, c); }
    }
    forall it | it in e.chain[1..] ensures cmp(c, it.data) == 0 {
      assert it in e.chain && cmp(h, it.data) == 0;
      Exchange(cmp, it.data, h, c);
    }
  }

  /** Equal keys compare alike with everything else. */
  lemma Exchange<D(!new)>(cmp: (D, D) -> int, x: D, h: D, c: D)
    requires TotalPreorder(cmp) && cmp(h, c) == 0
    ensures cmp(c, h) == 0
    ensures cmp(x, h) < 0 <==> cmp(x, c) < 0
    ensures cmp(h, x) < 0 <==> cmp(c, x) < 0
    ensures cmp(h, x) == 0 <==> cmp(c, x) == 0
  {
    assert cmp(c, h) > 0 <==> cmp(h, c) < 0;
    assert cmp(h, c) > 0 <==> cmp(c, h) < 0;
    assert cmp(x, h) > 0 <==> cmp(h, x) < 0;
    assert cmp(x, c) > 0 <==> cmp(c, x) < 0;
    assert cmp(h, x) > 0 <==> cmp(x, h) < 0;
    assert cmp(c, x) > 0 <==> cmp(x, c) < 0;
  }

  /** From now on x may have a position. */
  ghost method Unhang<D(!new)>(t: RbTree<D>, x: Node<D>, p: Path<D>, s: Shape<D>)
    requires t.Focused(p, s)
    modifies t`Repr, t`Hung
    ensures t.Repr == old(t.Repr) + {x} && t.Hung == old(t.Hung) - {x} && t.Focused(p, s)
  {
    t.Repr, t.Hung := t.Repr + {x}, t.Hung - {x};
  }

  /** The first node of the chain takes the place of n.  It keeps the color it was chained with,
      which is red. */
  method Promote<D(!new)>(t: RbTree<D>, n: Node<D>, child: Node<D>, ghost p: Path<D>, ghost s: Shape<D>)
    requires t.Valid() && t.Focused(p, s) && Plug(p, s) == t.shape && s.Fork? && n == s.entry.head.node
    requires s.entry.chain != [] && child == s.entry.chain[0].node
    modifies t`root, t`shape, t`Repr, t`Hung, t.Repr`left, t.Repr`right, t.Repr`parent
    modifies child`left, child`right, child`parent
    ensures t.Sound() && t.Owned() == old(t.Owned()) - {n}
    ensures Entries(t.shape) == LeftOf(p, s) + [Promoted(s.entry)] + RightOf(p, s)
    ensures t.Valid() <==> s.color == Red
  {
    hide RbTree.Focused; hide Ordered; hide Held; hide Simple; hide Stored; hide Entries; hide LeftOf; hide RightOf;
    hide TotalPreorder; hide Plug; hide RedBlack; hide ChainNodes; hide SameKeys;
    ghost var e, b, a, xs := s.entry, LeftOf(p, s), RightOf(p, s), t.Owned() - EntryNodes(s.entry);
    Isolate(t, p, s);
    PromotedEntry(e);
    PromotedOrder(t.cmp, b, e, a);
    ChainMember(e, 0);
    ChainsWithin(t, b + a, xs);
    Positions(t, p, s);
    Unhang(t, child, p, s);
    PromoteLinks(t, n, child, p, s, Promoted(e));
    ghost var r := Fork(s.left, Red, Promoted(e), s.right);
    ghost var s' := Plug(p, r);
    OtherColor(p, s, Red, Promoted(e));
    Sides(p, r);
    SameSideEntries(p, s, r);
    t.Whole(p, r);
    HeadsBut(s', b, Promoted(e), a, xs);
    FocusedWithin(t, s');
    Own(t, s', t.Repr - {n}, t.Hung);
    Refill(t, b, Promoted(e), a, xs);
  }

  /** The smallest tree for which the promotion breaks the rules: one black node with a chain. */
  lemma PromotionBreaks<D>(n: Node<D>, x: Node<D>, d: D)
    ensures var e := Entry(Item(n, d), [Item(x, d)]);
      RedBlack(Fork(Leaf, Black, e, Leaf)) && !RedBlack(Fork(Leaf, Red, Promoted(e), Leaf))
  {
  }

  lemma SameSideEntries<D>(p: Path<D>, s: Shape<D>, r: Shape<D>)
    requires s.Fork? && r.Fork? && r.left == s.left && r.right == s.right
    ensures LeftOf(p, r) == LeftOf(p, s) && RightOf(p, r) == RightOf(p, s)
  {
  }

  lemma Positions<D(!new)>(t: RbTree<D>, p: Path<D>, s: Shape<D>)
    requires t.Focused(p, s)
    ensures PathNodes(p) + Nodes(s) <= t.Repr
    ensures s.Fork? ==> s.entry.head.node in Nodes(s)
  {
  }

  /** The node of the first item accepted, if any. */
  ghost function FirstMatch<D>(items: seq<Item<D>>, accepts: Item<D> -> bool): seq<Node<D>> {
    if items == [] then []
    else if accepts(items[0]) then [items[0].node]
    else FirstMatch(items[1..], accepts)
  }

  lemma {:induction false} MatchAt<D>(items: seq<Item<D>>, accepts: Item<D> -> bool, i: nat)
    requires i <= |items| && forall j | 0 <= j < i :: !accepts(items[j])
    ensures i == |items| ==> FirstMatch(items, accepts) == []
    ensures i < |items| && accepts(items[i]) ==> FirstMatch(items, accepts) == [items[i].node]
  {
    if i > 0 { MatchAt(items[1..], accepts, i - 1); }
  }

  /** What tells one of several nodes with the same key: it is given the data of a node, the node
      itself if that has a position in the tree and null if it is chained, and the key. */
  type Matcher<!D> = (D, Node?<D>, D) -> bool

  ghost function Picks<D>(e: Entry<D>, same: Matcher<D>, key: D): Item<D> -> bool {
    (it: Item<D>) => same(it.data, if it.node == e.head.node then it.node else null, key)
  }

  /** The comparator accepts item i of the entry and none before it; the number after the last one
      stands for none. */
  ghost predicate FirstAccepted<D>(e: Entry<D>, same: Matcher<D>, key: D, i: nat) {
    && i <= |e.chain| + 1 && (same(e.head.data, e.head.node, key) <==> i == 0)
    && (forall j | 0 <= j < i - 1 :: !same(e.chain[j].data, null, key))
    && (0 < i <= |e.chain| ==> same(e.chain[i - 1].data, null, key))
  }

  /** There is such an item, and it is the one erased. */
  lemma ErasesFirst<D>(e: Entry<D>, same: Matcher<D>, key: D) returns (i: nat)
    requires Simple(e)
    ensures FirstAccepted(e, same, key, i)
    ensures var items, picks := ItemsOf(e), Picks(e, same, key);
      && (i < |items| ==>
            WithoutFirst(items, picks) == items[..i] + items[i + 1..] && FirstMatch(items, picks) == [items[i].node])
      && (i >= |items| ==> WithoutFirst(items, picks) == items && FirstMatch(items, picks) == [])
  {
    var items, picks := ItemsOf(e), Picks(e, same, key);
    PicksIs(e, same, key);
    i := 0;
    while i < |items| && !picks(items[i])
      invariant i <= |items| && forall j | 0 <= j < i :: !picks(items[j])
    {
      i := i + 1;
    }
    FirstAt(items, picks, i);
    MatchAt(items, picks, i);
    forall j | 0 <= j < i - 1 ensures !same(e.chain[j].data, null, key) {
      assert !picks(items[j + 1]);
    }
  }

  lemma PicksIs<D>(e: Entry<D>, same: Matcher<D>, key: D)
    requires Simple(e)
    ensures Picks(e, same, key)(ItemsOf(e)[0]) == same(e.head.data, e.head.node, key)
    ensures forall j | 0 <= j < |e.chain| :: Picks(e, same, key)(ItemsOf(e)[j + 1]) == same(e.chain[j].data, null, key)
  {
    forall j | 0 <= j < |e.chain| ensures Picks(e, same, key)(ItemsOf(e)[j + 1]) == same(e.chain[j].data, null, key) {
      assert e.chain[j] in e.chain;
    }
  }

  method ScanChain<D>(n: Node<D>, key: D, same: Matcher<D>, ghost e: Entry<D>)
    returns (prev: Node<D>, child: Node?<D>, ghost i: nat)
    requires Stored(e) && n == e.head.node
    ensures i <= |e.chain| && child == NodeAt(e.chain, i)
    ensures forall j | 0 <= j < i :: !same(e.chain[j].data, null, key)
    ensures i < |e.chain| ==> same(e.chain[i].data, null, key) && prev == ItemsOf(e)[i].node
  {
    hide Stored;
    ItemLink(e, 0);
    child, prev, i := n.next, n, 0;
    while child != null
      invariant Stored(e) && i <= |e.chain| && child == NodeAt(e.chain, i) && prev == ItemsOf(e)[i].node
      invariant forall j | 0 <= j < i :: !same(e.chain[j].data, null, key)
      decreases |e.chain| - i
    {
      ItemLink(e, i + 1);
      if same(child.data, null, key) {
        break;
      }
      prev, child, i := child, child.next, i + 1;
    }
  }

  /** What erasing the first match leaves of an entry, case by case. */
  lemma LeftOver<D>(e: Entry<D>, same: Matcher<D>, key: D, i: nat)
    requires Simple(e) && i <= |e.chain| && !same(e.head.data, e.head.node, key)
    requires forall j | 0 <= j < i :: !same(e.chain[j].data, null, key)
    ensures var picks, items := Picks(e, same, key), ItemsOf(e);
      && (i == |e.chain| ==> EntryOf(WithoutFirst(items, picks)) == [e] && FirstMatch(items, picks) == [])
      && (i < |e.chain| && same(e.chain[i].data, null, key) ==>
            && EntryOf(WithoutFirst(items, picks)) == [Entry(e.head, Cut(e.chain, i))]
            && FirstMatch(items, picks) == [e.chain[i].node])
  {
    hide WithoutFirst; hide FirstMatch; hide Picks; hide Simple;
    var picks, items := Picks(e, same, key), ItemsOf(e);
    PicksIs(e, same, key);
    FirstAt(items, picks, i + 1);
    MatchAt(items, picks, i + 1);
    if i < |e.chain| {
      CutItems(e, i);
      assert ItemsOf(Entry(e.head, Cut(e.chain, i)))[1..] == Cut(e.chain, i);
    }
  }

  /** The colors of the nodes, in the order of their entries. */
  ghost function Colors<D>(s: Shape<D>): (r: seq<Color>)
    ensures |r| == |Entries(s)|
  {
    if s.Leaf? then [] else Colors(s.left) + [s.color] + Colors(s.right)
  }

  lemma {:induction false} ColorsAt<D>(p: Path<D>, s: Shape<D>, k: nat)
    requires k < |Entries(s)|
    ensures |Before(p)| + k < |Entries(Plug(p, s))|
    ensures Colors(Plug(p, s))[|Before(p)| + k] == Colors(s)[k]
    decreases p
  {
    match p
    case Top =>
    case InLeft(c, e, r, up) => ColorsAt(up, Grown(p, s), k);
    case InRight(l, c, e, up) => ColorsAt(up, Grown(p, s), |Entries(l)| + 1 + k);
  }

  lemma FoundColor<D>(p: Path<D>, s: Shape<D>)
    requires s.Fork?
    ensures |LeftOf(p, s)| < |Entries(Plug(p, s))| && Colors(Plug(p, s))[|LeftOf(p, s)|] == s.color
  {
    ColorsAt(p, s, |Entries(s.left)|);
  }

  lemma HeadGone<D(!new)>(t: RbTree<D>, p: Path<D>, s: Shape<D>, same: Matcher<D>, key: D)
    requires t.Sound() && Plug(p, s) == t.shape && s.Fork? && same(s.entry.head.data, s.entry.head.node, key)
    ensures var e := s.entry;
      && e.head.node in t.Owned() && e.head.node.next == NodeAt(e.chain, 0)
      && FirstMatch(ItemsOf(e), Picks(e, same, key)) == [e.head.node]
      && EntryOf(WithoutFirst(ItemsOf(e), Picks(e, same, key))) == (if e.chain == [] then [] else [Promoted(e)])
      && (e.chain == [] ==> EntryNodes(e) == {e.head.node})
      && (e.chain != [] ==> e.chain[0].node in t.Owned())
  {
    hide RbTree.Focused;
    EntryKnown(t, p, s);
    FirstAt(ItemsOf(s.entry), Picks(s.entry, same, key), 0);
    assert s.entry.chain != [] ==> s.entry.chain[0] in s.entry.chain;
  }

  /** The first node with the key is the one to go, it is black, and others are chained to it. */
  ghost predicate PromotesToBlack<D(!new)>(t: RbTree<D>, key: D, same: Matcher<D>)
    reads t`shape
  {
    match Spot(t, key)
    case Nowhere(_, _) => false
    case Between(b, e, _) =>
      same(e.head.data, e.head.node, key) && e.chain != [] && |b| < |Colors(t.shape)| && Colors(t.shape)[|b|] == Black
  }

  /** The first node with the key goes: its chain, if any, takes its place. */
  method EraseHead<D(!new)>(t: RbTree<D>, n: Node<D>, key: D, same: Matcher<D>, ghost p: Path<D>, ghost s: Shape<D>)
    requires t.Valid() && t.Focused(p, s) && Plug(p, s) == t.shape && s.Fork? && n == s.entry.head.node
    requires same(s.entry.head.data, s.entry.head.node, key)
    modifies t, t.Repr, t.Hung
    ensures t.Sound() && (t.Valid() <==> s.entry.chain == [] || s.color == Red)
    ensures Entries(t.shape) ==
      LeftOf(p, s) + EntryOf(WithoutFirst(ItemsOf(s.entry), Picks(s.entry, same, key))) + RightOf(p, s)
    ensures FirstMatch(ItemsOf(s.entry), Picks(s.entry, same, key)) == [n]
    ensures t.recycled == old(t.recycled) + [n] && t.Owned() == old(t.Owned()) - {n}
  {
    hide RbTree.Focused; hide RbTree.Valid; hide RbTree.Sound; hide Entries; hide LeftOf; hide RightOf; hide Plug;
    hide EntryNodes; hide ItemsOf; hide EntryOf; hide WithoutFirst; hide FirstMatch; hide Stored; hide ChainNodes;
    ValidSound(t);
    HeadGone(t, p, s, same, key);
    if n.next != null {
      Promote(t, n, n.next, p, s);
    } else {
      TakeOut(t, n, p, s);
      ValidSound(t);
    }
    Recycle(t, n);
  }

  lemma FoundSimple<D(!new)>(t: RbTree<D>, p: Path<D>, s: Shape<D>)
    requires t.Sound() && Plug(p, s) == t.shape && s.Fork?
    ensures Simple(s.entry)
  {
    hide RbTree.Focused;
    Isolate(t, p, s);
  }

  lemma ChainOwned<D(!new)>(t: RbTree<D>, p: Path<D>, s: Shape<D>, i: nat)
    requires t.Sound() && Plug(p, s) == t.shape && s.Fork? && i < |s.entry.chain|
    ensures s.entry.chain[i].node in t.Owned() && ItemsOf(s.entry)[i].node in t.Owned()
  {
    hide RbTree.Focused;
    Isolate(t, p, s);
    ChainMember(s.entry, i);
  }

  /** A node further down the chain goes, if same accepts one. */
  method EraseChained<D(!new)>(t: RbTree<D>, n: Node<D>, key: D, same: Matcher<D>, ghost p: Path<D>, ghost s: Shape<D>)
    requires t.Valid() && t.Focused(p, s) && Plug(p, s) == t.shape && s.Fork? && n == s.entry.head.node
    requires !same(s.entry.head.data, s.entry.head.node, key)
    modifies t, t.Repr, t.Hung
    ensures t.Valid() && t.Sound()
    ensures Entries(t.shape) ==
      LeftOf(p, s) + EntryOf(WithoutFirst(ItemsOf(s.entry), Picks(s.entry, same, key))) + RightOf(p, s)
    ensures var gone := FirstMatch(ItemsOf(s.entry), Picks(s.entry, same, key));
      t.recycled == old(t.recycled) + gone && t.Owned() == old(t.Owned()) - (set x | x in gone)
  {
    hide RbTree.Focused; hide RbTree.Valid; hide RbTree.Sound; hide Entries; hide LeftOf; hide RightOf; hide Plug;
    hide ChainNodes; hide EntryNodes; hide ItemsOf; hide Stored;
    ValidSound(t);
    EntryKnown(t, p, s);
    FoundEntry(t, p, s);
    FoundSimple(t, p, s);
    var prev, child, i := ScanChain(n, key, same, s.entry);
    LeftOver(s.entry, same, key, i);
    if child != null {
      ChainOwned(t, p, s, i);
      TakeFromChain(t, prev, child, p, s, i);
      ValidSound(t);
      Recycle(t, child);
    }
  }

  /** Erase the first of the nodes with the key that same accepts.  The links, the order and
      the contents are always right afterwards.  The colors are too unless a chained node takes
      the place of a black one: exactly then the rules are broken. */
  method EraseX<D(!new)>(t: RbTree<D>, key: D, same: Matcher<D>) returns (ret: int)
    requires t.Valid()
    modifies t, t.Repr, t.Hung
    ensures t.Sound()
    ensures t.Valid() <==> !old(PromotesToBlack(t, key, same))
    ensures ret == if old(Spot(t, key)).Nowhere? then -1 else 0
    ensures old(Spot(t, key)).Nowhere? ==>
      t.shape == old(t.shape) && t.Owned() == old(t.Owned()) && t.recycled == old(t.recycled)
    ensures old(Spot(t, key)).Between? ==>
      var at := old(Spot(t, key));
      var gone := FirstMatch(ItemsOf(at.entry), Picks(at.entry, same, key));
      && Entries(t.shape) == at.before + EntryOf(WithoutFirst(ItemsOf(at.entry), Picks(at.entry, same, key))) + at.after
      && t.recycled == old(t.recycled) + gone && t.Owned() == old(t.Owned()) - (set x | x in gone)
  {
    hide RbTree.Focused; hide RbTree.Valid; hide RbTree.Sound; hide Entries; hide LeftOf; hide RightOf; hide Plug;
    hide AllAbove; hide AllBelow; hide Stored; hide EntryNodes; hide ItemsOf; hide Spot;
    ValidSound(t);
    var n, p, s, steps := Lookup(t, key);
    if n == null {
      return -1;
    }
    FoundEntry(t, p, s);
    FoundColor(p, s);
    EntryKnown(t, p, s);
    ret := 0;
    if same(n.data, n, key) {
      EraseHead(t, n, key, same, p, s);
    } else {
      EraseChained(t, n, key, same, p, s);
    }
  }

  // ---------- two runs ----------

  lemma SpotOne<D(!new)>(t: RbTree<D>, e: Entry<D>, key: D)
    requires TotalPreorder(t.cmp) && Entries(t.shape) == [e] && e.head.data == key
    ensures Spot(t, key) == Between([], e, [])
  {
    assert t.cmp(key, key) > 0 <==> t.cmp(key, key) < 0;
  }

  /** A tree with two nodes for one key: the second is chained to the first. */
  method TwoAlike<D(!new)>(cmp: (D, D) -> int, zero: D, d: D) returns (t: RbTree<D>, x: Node<D>, y: Node<D>)
    requires TotalPreorder(cmp)
    ensures t.Valid() && fresh(t) && fresh(t.Owned()) && t.multiple && t.cmp == cmp && x != y
    ensures Entries(t.shape) == [Entry(Item(x, d), [Item(y, d)])] && t.Owned() == {x, y} && t.recycled == []
    ensures Spot(t, d) == Between([], Entry(Item(x, d), [Item(y, d)]), [])
  {
    hide RbTree.Valid; hide Spot; hide Entries;
    t := new RbTree(cmp, true, zero);
    x := new Node(zero);
    x.data := d;
    SpotNone(t, d);
    var ret := Insert(t, x);
    SpotOne(t, Entry(Item(x, d), []), d);
    y := new Node(zero);
    y.data := d;
    ret := Insert(t, y);
    ghost var e, chain := Entry(Item(x, d), [Item(y, d)]), [Item(y, d)] + [];
    assert chain == e.chain && [] + [Entry(e.head, chain)] + [] == [e];
    SpotOne(t, Entry(Item(x, d), [Item(y, d)]), d);
  }

  lemma SpotNone<D(!new)>(t: RbTree<D>, key: D)
    requires t.shape == Leaf
    ensures Spot(t, key) == Nowhere([], [])
  {
  }

  /** A run in which erasing a key loses a node: it is neither in the tree nor recycled. */
  method EraseLoses<D(!new)>(cmp: (D, D) -> int, zero: D, d: D) returns (t: RbTree<D>, x: Node<D>, y: Node<D>)
    requires TotalPreorder(cmp)
    ensures t.Valid() && Entries(t.shape) == [] && t.recycled == [x] && y !in t.recycled && y !in t.Owned()
  {
    hide RbTree.Valid; hide Spot; hide Entries; hide EntryNodes;
    t, x, y := TwoAlike(cmp, zero, d);
    PairNodes(x, y, d);
    var ret := Erase(t, d);
  }

  lemma PairNodes<D>(x: Node<D>, y: Node<D>, d: D)
    ensures EntryNodes(Entry(Item(x, d), [Item(y, d)])) == {x, y}
  {
    assert Item(y, d) in [Item(y, d)];
  }

  /** A run in which erasing one of two nodes with the same key breaks the rules. */
  method EraseXBreaks<D(!new)>(cmp: (D, D) -> int, zero: D, d: D) returns (t: RbTree<D>, x: Node<D>, y: Node<D>)
    requires TotalPreorder(cmp)
    ensures t.Sound() && !t.Valid() && ColorOf(t.shape) == Red
    ensures Entries(t.shape) == [Entry(Item(y, d), [])] && t.recycled == [x]
  {
    hide Spot; hide Entries; hide RbTree.Valid; hide RbTree.Sound; hide Colors; hide ItemsOf;
    t, x, y := TwoAlike(cmp, zero, d);
    BlackRoot(t);
    var any: Matcher<D> := (a, n, k) => true;
    var ret := EraseX(t, d, any);
    AnyPicks(x, y, d, any);
    assert [] + [Entry(Item(y, d), [])] + [] == [Entry(Item(y, d), [])];
    LoneRoot(t);
  }

  lemma AnyPicks<D>(x: Node<D>, y: Node<D>, d: D, any: Matcher<D>)
    requires any(d, x, d)
    ensures var e := Entry(Item(x, d), [Item(y, d)]);
      && EntryOf(WithoutFirst(ItemsOf(e), Picks(e, any, d))) == [Entry(Item(y, d), [])]
      && FirstMatch(ItemsOf(e), Picks(e, any, d)) == [x]
  {
    var e := Entry(Item(x, d), [Item(y, d)]);
    FirstAt(ItemsOf(e), Picks(e, any, d), 0);
    var left := WithoutFirst(ItemsOf(e), Picks(e, any, d));
    assert left == ItemsOf(e)[..0] + ItemsOf(e)[1..];
    assert left == [Item(y, d)] && left[1..] == [];
  }

  lemma BlackRoot<D(!new)>(t: RbTree<D>)
    requires t.Valid() && |Entries(t.shape)| == 1
    ensures Colors(t.shape) == [Black]
  {
    assert t.shape.Fork? && RedBlack(t.shape);
    assert |Entries(t.shape.left)| == 0 && |Entries(t.shape.right)| == 0;
  }

  lemma LoneRoot<D(!new)>(t: RbTree<D>)
    requires t.Sound() && !t.Valid() && |Entries(t.shape)| == 1
    ensures ColorOf(t.shape) == Red
  {
    var l, r := t.shape.left, t.shape.right;
    assert |Entries(l)| == 0 && |Entries(r)| == 0;
    assert l == Leaf && r == Leaf;
    LoneRules(t.shape);
  }

  lemma LoneRules<D>(s: Shape<D>)
    requires s.Fork? && s.left == Leaf && s.right == Leaf
    ensures RedBlack(s) <==> s.color == Black
  {
    var l, r := s.left, s.right;
    assert Balanced(l) && NoRedRed(l) && BlackHeight(l) == 0;
  }
}
