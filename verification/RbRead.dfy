/** The operations that only read the tree: searches, walks and the self-check. */
module RbRead {
  import opened RbShape
  import opened RbTree
  import opened RbOps

  // ---------- how far a search can go ----------

  ghost function Pow2(n: nat): nat {
    if n == 0 then 1 else 2 * Pow2(n - 1)
  }

  lemma {:induction false} Pow2Sum(a: nat, b: nat)
    ensures Pow2(a + b) == Pow2(a) * Pow2(b)
  {
    if a > 0 {
      Pow2Sum(a - 1, b);
      assert 2 * (Pow2(a - 1) * Pow2(b)) == Pow2(a) * Pow2(b);
    }
  }

  lemma {:induction false} Pow2Mono(a: nat, b: nat)
    requires a <= b
    ensures Pow2(a) <= Pow2(b)
  {
    if a < b { Pow2Mono(a, b - 1); }
  }

  lemma {:induction false} BlackHeightBounds<D>(s: Shape<D>)
    requires Balanced(s) && NoRedRed(s)
    ensures Height(s) <= 2 * BlackHeight(s) + (if ColorOf(s) == Red then 1 else 0)
    ensures Pow2(BlackHeight(s)) <= |Entries(s)| + 1
  {
    if s.Fork? {
      BlackHeightBounds(s.left);
      BlackHeightBounds(s.right);
      assert |Entries(s)| == |Entries(s.left)| + 1 + |Entries(s.right)|;
    }
  }

  /** The height of a red-black tree with n positions is at most 2 * log2(n + 1). */
  lemma HeightBound<D>(s: Shape<D>)
    requires RedBlack(s)
    ensures Pow2(Height(s)) <= (|Entries(s)| + 1) * (|Entries(s)| + 1)
  {
    var b, n := BlackHeight(s), |Entries(s)| + 1;
    BlackHeightBounds(s);
    Pow2Mono(Height(s), b + b);
    Pow2Sum(b, b);
    Squares(Pow2(b), n);
  }

  lemma Squares(a: nat, b: nat)
    requires a <= b
    ensures a * a <= b * b
  {
    assert a * a <= a * b <= b * b;
  }

  // ---------- searches ----------

  /** The node in the tree that holds the key, or null. */
  method Find<D(!new)>(t: RbTree<D>, key: D) returns (node: Node?<D>, ghost steps: nat)
    requires t.Valid()
    ensures node == if Spot(t, key).Nowhere? then null else Spot(t, key).entry.head.node
    ensures steps == Comparisons(t.cmp, t.shape, key)
    ensures Pow2(steps) <= (|Entries(t.shape)| + 1) * (|Entries(t.shape)| + 1)
  {
    hide RbTree.Focused; hide RbTree.Valid; hide RbTree.Sound; hide Entries; hide Plug;
    hide AllAbove; hide AllBelow; hide RedBlack; hide Pow2; hide Spot;
    ValidSound(t);
    ghost var p, s;
    node, p, s, steps := Lookup(t, key);
    HeightBound(t.shape);
    Pow2Mono(steps, Height(t.shape));
  }

  /** Which of the nodes with the key a search is for.  Node and data are given, and the key. */
  datatype Choice<!D> = First | Like(same: (Item<D>, D) -> bool)

  /** Item i is the first of the items that same accepts for the key. */
  ghost predicate FirstLike<D>(items: seq<Item<D>>, same: (Item<D>, D) -> bool, key: D, i: int) {
    0 <= i < |items| && same(items[i], key) && forall j | 0 <= j < i :: !same(items[j], key)
  }

  /** The first of the nodes with the key that fits the choice, or null. */
  method FindX<D(!new)>(t: RbTree<D>, key: D, choice: Choice<D>) returns (node: Node?<D>)
    requires t.Valid()
    ensures Spot(t, key).Nowhere? ==> node == null
    ensures Spot(t, key).Between? && choice.First? ==> node == Spot(t, key).entry.head.node
    ensures Spot(t, key).Between? && choice.Like? && node == null ==>
      forall it | it in ItemsOf(Spot(t, key).entry) :: !choice.same(it, key)
    ensures Spot(t, key).Between? && choice.Like? && node != null ==>
      var items := ItemsOf(Spot(t, key).entry);
      exists i :: FirstLike(items, choice.same, key, i) && items[i].node == node
  {
    hide RbTree.Focused; hide RbTree.Valid; hide RbTree.Sound; hide Entries; hide LeftOf; hide RightOf; hide Plug;
    hide AllAbove; hide AllBelow; hide ItemsOf; hide FirstLike; hide Stored; hide Spot;
    ValidSound(t);
    var n, p, s, steps := Lookup(t, key);
    node := n;
    if n != null && choice.Like? {
      EntryKnown(t, p, s);
      node := ScanItems(n, key, choice.same, s.entry);
    }
  }

  method ScanItems<D>(n: Node<D>, key: D, same: (Item<D>, D) -> bool, ghost e: Entry<D>) returns (node: Node?<D>)
    requires Stored(e) && n == e.head.node
    ensures node == null ==> forall it | it in ItemsOf(e) :: !same(it, key)
    ensures node != null ==> exists i :: FirstLike(ItemsOf(e), same, key, i) && ItemsOf(e)[i].node == node
  {
    hide Stored;
    node := n;
    ghost var i := 0;
    while node != null
      invariant Stored(e) && i <= |e.chain| + 1 && node == NodeAt(ItemsOf(e), i)
      invariant forall j | 0 <= j < i :: !same(ItemsOf(e)[j], key)
      decreases |e.chain| + 1 - i
    {
      ItemLink(e, i);
      assert ItemsOf(e)[i] == Item(node, node.data);
      if same(Item(node, node.data), key) {
        assert FirstLike(ItemsOf(e), same, key, i);
        break;
      }
      node, i := node.next, i + 1;
    }
  }

  // ---------- operating on the nodes with a key ----------

  /** A function that is called for a node with its data and next link, and with a hint it may
      change; 0 lets the calls go on. */
  type Operation<!D, !H> = (H, Item<D>, Node?<D>) -> (H, int)

  datatype Call<D> = Call(item: Item<D>, next: Node?<D>)

  ghost predicate Chosen<D>(choice: Choice<D>, it: Item<D>, key: D) {
    choice.First? || choice.same(it, key)
  }

  /** The hint and the result after op has been called for the chosen ones of the items, up to
      the first call that fails. */
  ghost function Applied<D, H>(items: seq<Item<D>>, choice: Choice<D>, key: D, op: Operation<D, H>, h: H,
      ret: int): (H, int) {
    if items == [] then (h, ret)
    else if !Chosen(choice, items[0], key) then Applied(items[1..], choice, key, op, h, ret)
    else
      var (h', r) := op(h, items[0], NodeAt(items, 1));
      if r != 0 then (h', r) else Applied(items[1..], choice, key, op, h', r)
  }

  /** The calls that are made if none of them fails. */
  ghost function Calls<D>(items: seq<Item<D>>, choice: Choice<D>, key: D): seq<Call<D>> {
    if items == [] then []
    else
      (if Chosen(choice, items[0], key) then [Call(items[0], NodeAt(items, 1))] else [])
      + Calls(items[1..], choice, key)
  }

  /** Without a comparator every node with the key is called, with its next link. */
  lemma {:induction false} CallsAll<D>(items: seq<Item<D>>, choice: Choice<D>, key: D)
    requires choice == First
    ensures |Calls(items, choice, key)| == |items|
    ensures forall i | 0 <= i < |items| :: Calls(items, choice, key)[i] == Call(items[i], NodeAt(items, i + 1))
  {
    if items != [] {
      CallsAll(items[1..], choice, key);
      forall i | 1 <= i < |items| ensures Calls(items, choice, key)[i] == Call(items[i], NodeAt(items, i + 1)) {
        assert Calls(items, choice, key)[i] == Calls(items[1..], choice, key)[i - 1];
      }
    }
  }

  /** How many of the first k items same accepts. */
  ghost function Accepted<D>(items: seq<Item<D>>, same: (Item<D>, D) -> bool, key: D, k: nat): nat
    requires k <= |items|
  {
    if k == 0 then 0 else (if same(items[0], key) then 1 else 0) + Accepted(items[1..], same, key, k - 1)
  }

  /** With a comparator exactly the nodes it accepts are called, each once and in chain order: the
      call for an accepted one comes after as many calls as there are accepted ones before it, and
      there are no other calls. */
  lemma {:induction false} CallsLike<D>(items: seq<Item<D>>, same: (Item<D>, D) -> bool, key: D)
    ensures |Calls(items, Like(same), key)| == Accepted(items, same, key, |items|)
    ensures forall k: nat | k < |items| && same(items[k], key) ::
      CalledAs(items, Like(same), key, Accepted(items, same, key, k), k)
  {
    if items != [] {
      var rest, calls := Calls(items[1..], Like(same), key), Calls(items, Like(same), key);
      CallsLike(items[1..], same, key);
      forall k: nat | k < |items| && same(items[k], key)
        ensures CalledAs(items, Like(same), key, Accepted(items, same, key, k), k)
      {
        if k > 0 {
          assert same(items[1..][k - 1], key);
          assert CalledAs(items[1..], Like(same), key, Accepted(items[1..], same, key, k - 1), k - 1);
        }
      }
    }
  }

  /** Call number i is the one for item k. */
  ghost predicate CalledAs<D>(items: seq<Item<D>>, choice: Choice<D>, key: D, i: nat, k: nat) {
    && i < |Calls(items, choice, key)| && k < |items|
    && Calls(items, choice, key)[i] == Call(items[k], NodeAt(items, k + 1))
  }

  /** The hint after the first k of the calls. */
  ghost function HintAfter<D, H>(calls: seq<Call<D>>, op: Operation<D, H>, h: H, k: nat): H
    requires k <= |calls|
  {
    if k == 0 then h else op(HintAfter(calls, op, h, k - 1), calls[k - 1].item, calls[k - 1].next).0
  }

  ghost function ResultOf<D, H>(calls: seq<Call<D>>, op: Operation<D, H>, h: H, k: nat): int
    requires k < |calls|
  {
    op(HintAfter(calls, op, h, k), calls[k].item, calls[k].next).1
  }

  /** Leaving the first call out. */
  lemma {:induction false} HintShift<D, H>(calls: seq<Call<D>>, op: Operation<D, H>, h: H, k: nat)
    requires k < |calls|
    ensures HintAfter(calls, op, h, k + 1) == HintAfter(calls[1..], op, HintAfter(calls, op, h, 1), k)
  {
    if k == 0 {
      assert HintAfter(calls[1..], op, HintAfter(calls, op, h, 1), 0) == HintAfter(calls, op, h, 1);
    } else {
      HintShift(calls, op, h, k - 1);
    }
  }

  /** Every call up to the first failing one is made, once and in chain order, and none after it:
      k is the number of calls that succeed. */
  lemma {:induction false} AppliedStops<D, H>(items: seq<Item<D>>, choice: Choice<D>, key: D, op: Operation<D, H>,
      h: H, k: nat)
    requires k <= |Calls(items, choice, key)|
    requires forall j | 0 <= j < k :: ResultOf(Calls(items, choice, key), op, h, j) == 0
    ensures var calls := Calls(items, choice, key);
      && (k == |calls| ==> Applied(items, choice, key, op, h, 0) == (HintAfter(calls, op, h, k), 0))
      && (k < |calls| && ResultOf(calls, op, h, k) != 0 ==>
            Applied(items, choice, key, op, h, 0) == (HintAfter(calls, op, h, k + 1), ResultOf(calls, op, h, k)))
  {
    if items != [] {
      var calls, rest := Calls(items, choice, key), Calls(items[1..], choice, key);
      if !Chosen(choice, items[0], key) {
        assert calls == rest;
        AppliedStops(items[1..], choice, key, op, h, k);
      } else {
        assert calls[1..] == rest;
        var h' := HintAfter(calls, op, h, 1);
        assert HintAfter(calls, op, h, 0) == h && calls[0] == Call(items[0], NodeAt(items, 1));
        assert (h', ResultOf(calls, op, h, 0)) == op(h, items[0], NodeAt(items, 1));
        if k > 0 {
          assert ResultOf(calls, op, h, 0) == 0;
          forall j | 0 <= j < |rest| ensures ResultOf(rest, op, h', j) == ResultOf(calls, op, h, j + 1) {
            HintShift(calls, op, h, j);
          }
          AppliedStops(items[1..], choice, key, op, h', k - 1);
          HintShift(calls, op, h, k - 1);
          if k < |calls| { HintShift(calls, op, h, k); }
        }
      }
    }
  }

  const NOT_EXIST: int := 0xff00_0008 - 0x1_0000_0000

  /** Call op for the nodes with the key. */
  method Operate<D(!new), H>(t: RbTree<D>, key: D, choice: Choice<D>, op: Operation<D, H>, hint: H)
    returns (ret: int, h: H)
    requires t.Valid()
    ensures Spot(t, key).Nowhere? ==> h == hint && ret == -16777208
    ensures Spot(t, key).Between? ==> (h, ret) == Applied(ItemsOf(Spot(t, key).entry), choice, key, op, hint, 0)
  {
    hide RbTree.Focused; hide RbTree.Valid; hide RbTree.Sound; hide Entries; hide LeftOf; hide RightOf; hide Plug;
    hide AllAbove; hide AllBelow; hide ItemsOf; hide Stored; hide Applied; hide Spot;
    ValidSound(t);
    var n, p, s, steps := Lookup(t, key);
    if n == null {
      return NOT_EXIST, hint;
    }
    EntryKnown(t, p, s);
    h, ret := OperateChain(n, key, choice, op, hint, s.entry);
  }

  method OperateChain<D, H>(n: Node<D>, key: D, choice: Choice<D>, op: Operation<D, H>, hint: H, ghost e: Entry<D>)
    returns (h: H, ret: int)
    requires Stored(e) && n == e.head.node
    ensures (h, ret) == Applied(ItemsOf(e), choice, key, op, hint, 0)
  {
    hide Stored;
    var refer: Node?<D> := n;
    ghost var i := 0;
    h, ret := hint, 0;
    while refer != null
      invariant Stored(e) && i <= |e.chain| + 1 && refer == NodeAt(ItemsOf(e), i)
      invariant Applied(ItemsOf(e)[i..], choice, key, op, h, ret) == Applied(ItemsOf(e), choice, key, op, hint, 0)
      decreases |e.chain| + 1 - i
    {
      ItemLink(e, i);
      assert ItemsOf(e)[i..][1..] == ItemsOf(e)[i + 1..];
      var it := Item(refer, refer.data);
      assert it == ItemsOf(e)[i] && refer.next == NodeAt(ItemsOf(e)[i..], 1);
      if choice.First? || choice.same(it, key) {
        var (h', r) := op(h, it, refer.next);
        h, ret := h', r;
        if ret != 0 {
          break;
        }
      }
      refer, i := refer.next, i + 1;
    }
  }

  // ---------- walks ----------

  /** The nodes in the order a walk visits them: 0 a node between its children, 1 before them,
      any other number after them; a chain always follows its head. */
  ghost function Walk<D>(s: Shape<D>, order: int): seq<Item<D>> {
    if s.Leaf? then []
    else
      (if order == 1 then ItemsOf(s.entry) else []) + Walk(s.left, order)
      + (if order == 0 then ItemsOf(s.entry) else []) + Walk(s.right, order)
      + (if order != 0 && order != 1 then ItemsOf(s.entry) else [])
  }

  ghost function AllItems<D>(es: seq<Entry<D>>): seq<Item<D>> {
    if es == [] then [] else ItemsOf(es[0]) + AllItems(es[1..])
  }

  lemma {:induction false} AllItemsSplit<D>(a: seq<Entry<D>>, b: seq<Entry<D>>)
    ensures AllItems(a + b) == AllItems(a) + AllItems(b)
  {
    if a == [] {
      assert a + b == b;
    } else {
      assert (a + b)[1..] == a[1..] + b;
      AllItemsSplit(a[1..], b);
    }
  }

  lemma AllItemsJoin<D>(l: seq<Entry<D>>, e: Entry<D>, r: seq<Entry<D>>)
    ensures AllItems(l + [e] + r) == AllItems(l) + ItemsOf(e) + AllItems(r)
  {
    hide ItemsOf;
    var es := [e] + r;
    assert l + [e] + r == l + es;
    AllItemsSplit(l, es);
    assert es[0] == e && es[1..] == r;
  }

  lemma ForkItems<D>(s: Shape<D>)
    requires s.Fork?
    ensures AllItems(Entries(s)) == AllItems(Entries(s.left)) + ItemsOf(s.entry) + AllItems(Entries(s.right))
  {
    hide ItemsOf; hide AllItems;
    AllItemsJoin(Entries(s.left), s.entry, Entries(s.right));
  }

  /** A walk between children goes through the entries one after the other. */
  lemma {:induction false} WalkInOrder<D>(s: Shape<D>)
    ensures Walk(s, 0) == AllItems(Entries(s))
  {
    hide ItemsOf; hide Walk;
    WalkFork(s, 0);
    if s.Fork? {
      WalkInOrder(s.left);
      WalkInOrder(s.right);
      ForkItems(s);
    }
  }

  /** Every walk visits every node, and each of them once. */
  lemma {:induction false} WalkComplete<D>(s: Shape<D>, order: int)
    ensures multiset(Walk(s, order)) == multiset(AllItems(Entries(s)))
  {
    hide ItemsOf; hide Walk;
    WalkFork(s, order);
    if s.Fork? {
      WalkComplete(s.left, order);
      WalkComplete(s.right, order);
      ForkItems(s);
    }
  }

  /** The entry is on the way from the position of p to the root. */
  ghost predicate OnWay<D>(p: Path<D>, e: Entry<D>) {
    !p.Top? && (e == p.entry || OnWay(p.up, e))
  }

  /** What a walk visits around a subtree, one step up. */
  ghost function StepBefore<D>(p: Path<D>, order: int): seq<Item<D>>
    requires !p.Top?
  {
    (if order == 1 then ItemsOf(p.entry) else [])
    + (if p.InRight? then Walk(p.left, order) else [])
    + (if order == 0 && p.InRight? then ItemsOf(p.entry) else [])
  }

  ghost function StepAfter<D>(p: Path<D>, order: int): seq<Item<D>>
    requires !p.Top?
  {
    (if order == 0 && p.InLeft? then ItemsOf(p.entry) else [])
    + (if p.InLeft? then Walk(p.right, order) else [])
    + (if order != 0 && order != 1 then ItemsOf(p.entry) else [])
  }

  /** What it visits before the subtree at the position of p, and after it. */
  ghost function WalkBefore<D>(p: Path<D>, order: int): seq<Item<D>> {
    if p.Top? then [] else WalkBefore(p.up, order) + StepBefore(p, order)
  }

  ghost function WalkAfter<D>(p: Path<D>, order: int): seq<Item<D>> {
    if p.Top? then [] else StepAfter(p, order) + WalkAfter(p.up, order)
  }

  lemma WalkGrown<D>(p: Path<D>, s: Shape<D>, order: int)
    requires !p.Top?
    ensures Walk(Grown(p, s), order) == StepBefore(p, order) + Walk(s, order) + StepAfter(p, order)
  {
    hide ItemsOf;
    WalkFork(Grown(p, s), order);
  }

  /** The nodes of a subtree are visited one after the other. */
  lemma {:induction false} WalkAround<D>(p: Path<D>, s: Shape<D>, order: int)
    ensures Walk(Plug(p, s), order) == WalkBefore(p, order) + Walk(s, order) + WalkAfter(p, order)
    decreases p
  {
    hide Walk; hide StepBefore; hide StepAfter;
    if !p.Top? {
      WalkAround(p.up, Grown(p, s), order);
      WalkGrown(p, s, order);
      var b, x, w := WalkBefore(p.up, order), StepBefore(p, order), Walk(s, order);
      var y, a := StepAfter(p, order), WalkAfter(p.up, order);
      assert b + (x + w + y) + a == (b + x) + w + (y + a);
    }
  }

  /** The nodes on the way to a subtree come before all of its nodes in order 1, and after all of
      them in an order that is neither 0 nor 1. */
  lemma {:induction false} WalkAncestors<D>(p: Path<D>, order: int, e: Entry<D>, it: Item<D>)
    requires OnWay(p, e) && it in ItemsOf(e)
    ensures order == 1 ==> it in WalkBefore(p, order)
    ensures order != 0 && order != 1 ==> it in WalkAfter(p, order)
  {
    hide Walk;
    if e != p.entry {
      WalkAncestors(p.up, order, e, it);
    }
  }

  ghost predicate Ascending<D(!new)>(cmp: (D, D) -> int, items: seq<Item<D>>) {
    forall i, j | 0 <= i < j < |items| :: cmp(items[i].data, items[j].data) <= 0
  }

  lemma ItemOf<D(!new)>(cmp: (D, D) -> int, e: Entry<D>, it: Item<D>)
    requires TotalPreorder(cmp) && SameKeys(cmp, [e]) && it in ItemsOf(e)
    ensures cmp(e.head.data, it.data) == 0 && cmp(it.data, e.head.data) == 0
  {
    assert e in [e];
    var d, x := e.head.data, it.data;
    assert cmp(d, d) > 0 <==> cmp(d, d) < 0;
    assert cmp(d, x) > 0 <==> cmp(x, d) < 0;
    assert cmp(x, d) > 0 <==> cmp(d, x) < 0;
  }

  lemma {:induction false} ItemFrom<D>(es: seq<Entry<D>>, it: Item<D>)
    requires it in AllItems(es)
    ensures exists k :: 0 <= k < |es| && it in ItemsOf(es[k])
  {
    if it in ItemsOf(es[0]) {
      assert it in ItemsOf(es[0]);
    } else {
      ItemFrom(es[1..], it);
      var k :| 0 <= k < |es[1..]| && it in ItemsOf(es[1..][k]);
      assert it in ItemsOf(es[k + 1]);
    }
  }

  /** An item of one entry comes before every item of the entries behind it. */
  lemma ItemBefore<D(!new)>(cmp: (D, D) -> int, e: Entry<D>, rest: seq<Entry<D>>, x: Item<D>, y: Item<D>)
    requires TotalPreorder(cmp) && Ordered(cmp, [e] + rest) && SameKeys(cmp, [e] + rest)
    requires x in ItemsOf(e) && (y in ItemsOf(e) || y in AllItems(rest))
    ensures cmp(x.data, y.data) <= 0
  {
    var es, h := [e] + rest, e.head.data;
    assert e in es;
    ItemOf(cmp, e, x);
    if y in ItemsOf(e) {
      ItemOf(cmp, e, y);
    } else {
      ItemFrom(rest, y);
      var k :| 0 <= k < |rest| && y in ItemsOf(rest[k]);
      assert es[0] == e && es[k + 1] == rest[k] && rest[k] in es;
      assert cmp(es[0].head.data, es[k + 1].head.data) < 0;
      ItemOf(cmp, rest[k], y);
      assert cmp(h, y.data) <= 0;
    }
    assert cmp(x.data, h) <= 0 && cmp(h, y.data) <= 0;
  }

  /** Items of entries in order come in order, equal keys side by side. */
  lemma {:induction false} ItemsAscend<D(!new)>(cmp: (D, D) -> int, es: seq<Entry<D>>)
    requires TotalPreorder(cmp) && Ordered(cmp, es) && SameKeys(cmp, es)
    ensures Ascending(cmp, AllItems(es))
  {
    hide TotalPreorder; hide ItemsOf;
    if es != [] {
      var e, rest := es[0], es[1..];
      assert es == [e] + rest;
      ItemsAscend(cmp, rest);
      var a: seq<Item<D>>, b := ItemsOf(e), AllItems(rest);
      var all := a + b;
      forall i: nat, j: nat | i < j < |all| ensures cmp(all[i].data, all[j].data) <= 0 {
        if i < |a| {
          ItemBefore(cmp, e, rest, all[i], all[j]);
        } else {
          assert all[i] == b[i - |a|] && all[j] == b[j - |a|];
        }
      }
    }
  }

  /** What walking a valid tree in order shows. */
  lemma WalkSorted<D(!new)>(t: RbTree<D>)
    requires t.Sound()
    ensures Ascending(t.cmp, Walk(t.shape, 0))
  {
    WalkInOrder(t.shape);
    ItemsAscend(t.cmp, Entries(t.shape));
  }

  /** Call do_each for one node and those chained to it. */
  method VisitChain<D>(n: Node<D>, ghost e: Entry<D>) returns (seen: seq<Item<D>>)
    requires Stored(e) && n == e.head.node
    ensures seen == ItemsOf(e)
  {
    hide Stored;
    seen := [];
    var child: Node?<D> := n;
    while child != null
      invariant Stored(e) && |seen| <= |e.chain| + 1
      invariant seen == ItemsOf(e)[..|seen|] && child == NodeAt(ItemsOf(e), |seen|)
      decreases |e.chain| + 1 - |seen|
    {
      ItemLink(e, |seen|);
      seen, child := seen + [Item(child, child.data)], child.next;
    }
  }

  /** The calls of do_each, in their order. */
  method Foreach<D(!new)>(t: RbTree<D>, root: Node?<D>, order: int, ghost p: Path<D>, ghost s: Shape<D>)
      returns (seen: seq<Item<D>>)
    requires t.Sound() && t.Focused(p, s) && Plug(p, s) == t.shape && root == Root(s)
    ensures seen == Walk(s, order)
    decreases s
  {
    hide RbTree.Focused; hide RbTree.Sound; hide Plug; hide Stored; hide ItemsOf; hide Entries; hide Walk;
    seen := [];
    WalkFork(s, order);
    if root != null {
      ghost var q, r := InLeft(s.color, s.entry, s.right, p), InRight(s.left, s.color, s.entry, p);
      Below(t, p, s);
      var here, part;
      if order == 1 {
        seen := VisitChain(root, s.entry);
      }
      part := Foreach(t, root.left, order, q, s.left);
      seen := seen + part;
      if order == 0 {
        Below(t, p, s);
        here := VisitChain(root, s.entry);
        seen := seen + here;
      }
      part := Foreach(t, root.right, order, r, s.right);
      seen := seen + part;
      if order != 0 && order != 1 {
        Below(t, p, s);
        here := VisitChain(root, s.entry);
        seen := seen + here;
      }
    }
  }

  lemma WalkFork<D>(s: Shape<D>, order: int)
    ensures s.Leaf? ==> Walk(s, order) == []
    ensures s.Fork? ==>
      var here, l, r := ItemsOf(s.entry), Walk(s.left, order), Walk(s.right, order);
      Walk(s, order) == if order == 1 then here + l + r else if order == 0 then l + here + r else l + r + here
  {
    hide ItemsOf;
  }

  /** From the root of s to both of its children. */
  lemma Below<D(!new)>(t: RbTree<D>, p: Path<D>, s: Shape<D>)
    requires t.Sound() && t.Focused(p, s) && Plug(p, s) == t.shape && s.Fork?
    ensures var n, q, r := Root(s), InLeft(s.color, s.entry, s.right, p), InRight(s.left, s.color, s.entry, p);
      && Stored(s.entry) && n.left == Root(s.left) && n.right == Root(s.right)
      && t.Focused(q, s.left) && t.Focused(r, s.right)
      && Plug(q, s.left) == t.shape && Plug(r, s.right) == t.shape
  {
    hide RbTree.Focused; hide RbTree.Sound;
    EntryKnown(t, p, s);
    t.Local(p, s);
    t.Refocus(InLeft(s.color, s.entry, s.right, p), s.left);
    t.Refocus(InRight(s.left, s.color, s.entry, p), s.right);
  }

  // ---------- the self-check ----------

  /** No red node below n has a red child, nor n itself a red parent. */
  method Property4<D(!new)>(t: RbTree<D>, n: Node?<D>, ghost p: Path<D>, ghost s: Shape<D>) returns (ok: bool)
    requires t.Focused(p, s) && n == Root(s)
    ensures ok <==> NoRedRed(s) && (p.Top? || (ColorOf(s) == Red ==> p.color == Black))
    decreases s
  {
    hide RbTree.Focused;
    if n == null {
      return true;
    }
    ghost var q, r := InLeft(s.color, s.entry, s.right, p), InRight(s.left, s.color, s.entry, p);
    t.Local(p, s);
    t.Refocus(q, s.left);
    t.Refocus(r, s.right);
    if n.color == Red {
      if NodeColor(n.left) != Black || NodeColor(n.right) != Black || NodeColor(n.parent) != Black {
        return false;
      }
    }
    ok := Property4(t, n.left, q, s.left);
    if ok {
      ok := Property4(t, n.right, r, s.right);
    }
  }

  /** Compare the black nodes on each way down, those above counted already, with the number
      found on the first way, -1 while there is none. */
  method Property5<D(!new)>(t: RbTree<D>, n: Node?<D>, above: nat, first: int, ghost p: Path<D>, ghost s: Shape<D>)
    returns (ok: bool, first': int)
    requires t.Focused(p, s) && n == Root(s) && first >= -1
    ensures ok <==> Balanced(s) && (first == -1 || first == above + BlackHeight(s) + 1)
    ensures ok ==> first' == above + BlackHeight(s) + 1
    ensures first' >= -1
    decreases s
  {
    hide RbTree.Focused;
    first' := first;
    var count := above;
    if NodeColor(n) == Black {
      count := count + 1;
    }
    if n == null {
      if first == -1 {
        return true, count;
      }
      return count == first, first;
    }
    ghost var q, r := InLeft(s.color, s.entry, s.right, p), InRight(s.left, s.color, s.entry, p);
    t.Local(p, s);
    t.Refocus(q, s.left);
    t.Refocus(r, s.right);
    ok, first' := Property5(t, n.left, count, first', q, s.left);
    if ok {
      ok, first' := Property5(t, n.right, count, first', r, s.right);
    }
  }

  /** The self-check accepts exactly the red-black trees, whatever the colors are. */
  method Verify<D(!new)>(t: RbTree<D>) returns (ok: bool)
    requires t.Focused(Top, t.shape)
    ensures ok <==> RedBlack(t.shape)
    ensures ok ==> Pow2(Height(t.shape)) <= (|Entries(t.shape)| + 1) * (|Entries(t.shape)| + 1)
  {
    hide RbTree.Focused;
    FocusedWithin(t, t.shape);
    ok := RootBlack(t);
    if ok {
      ok := Property4(t, t.root, Top, t.shape);
      if ok {
        var first;
        ok, first := Property5(t, t.root, 0, -1, Top, t.shape);
      }
    }
    if ok {
      HeightBound(t.shape);
    }
  }

  method RootBlack<D(!new)>(t: RbTree<D>) returns (ok: bool)
    requires t.Focused(Top, t.shape)
    ensures ok <==> ColorOf(t.shape) == Black
  {
    ok := NodeColor(t.root) == Black;
  }

  // ---------- the default comparator ----------

  /** A signed 32-bit subtraction that wraps around. */
  function Sub32(a: int, b: int): int {
    (a - b + 0x8000_0000) % 0x1_0000_0000 - 0x8000_0000
  }

  ghost predicate IsInt32(x: int) {
    -0x8000_0000 <= x < 0x8000_0000
  }

  ghost predicate SameSign(x: int, y: int) {
    (x < 0 <==> y < 0) && (x > 0 <==> y > 0)
  }

  /** Comparing keys by subtracting them is right for two keys exactly if the difference of
      these keys can be represented. */
  lemma DefaultCompare(a: int, b: int)
    requires IsInt32(a) && IsInt32(b)
    ensures SameSign(Sub32(a, b), a - b) <==> IsInt32(a - b)
    ensures IsInt32(Sub32(a, b)) && (Sub32(a, b) == 0 <==> a == b)
  {
    if a - b >= 0x8000_0000 {
      assert Sub32(a, b) == a - b - 0x1_0000_0000;
    } else if a - b < -0x8000_0000 {
      assert Sub32(a, b) == a - b + 0x1_0000_0000;
    } else {
      assert Sub32(a, b) == a - b;
    }
  }

  type Window = x: int | 0 <= x < 0x8000_0000

  /** Among keys that all lie in a window of 2^31 values the default comparator is an order. */
  lemma DefaultOrders(lo: int)
    requires IsInt32(lo) && IsInt32(lo + 0x7FFF_FFFF)
    ensures TotalPreorder((a: Window, b: Window) => Sub32(lo + a, lo + b))
  {
    var cmp := (a: Window, b: Window) => Sub32(lo + a, lo + b);
    forall a: Window, b: Window ensures cmp(a, b) == a - b {
      DefaultCompare(lo + a, lo + b);
    }
  }

  /** The default comparator is an order among the n keys from lo on. */
  ghost predicate OrdersWindow(lo: int, n: nat) {
    && (forall a, b | lo <= a < lo + n && lo <= b < lo + n :: Sub32(a, b) > 0 <==> Sub32(b, a) < 0)
    && (forall a, b, c | lo <= a < lo + n && lo <= b < lo + n && lo <= c < lo + n ::
          Sub32(a, b) <= 0 && Sub32(b, c) <= 0 ==> Sub32(a, c) <= 0)
  }

  /** For keys in a window of n values the default comparator is an order if and only if n is at
      most 2^31: one key more, and two keys are each before the other. */
  lemma WindowOrder(lo: int, n: nat)
    requires IsInt32(lo) && (n > 0 ==> IsInt32(lo + n - 1))
    ensures OrdersWindow(lo, n) <==> n <= 0x8000_0000
  {
    if n <= 0x8000_0000 {
      forall a, b | lo <= a < lo + n && lo <= b < lo + n ensures SameSign(Sub32(a, b), a - b) {
        DefaultCompare(a, b);
      }
    } else {
      var a, b := lo, lo + 0x8000_0000;
      assert lo <= a < lo + n && lo <= b < lo + n;
      assert Sub32(a, b) == -0x8000_0000 && Sub32(b, a) == -0x8000_0000;
    }
  }

  /** Three keys for which it is none: each would stand before the next, all the way around. */
  lemma DefaultCycle()
    ensures var a, b, c := -0x7000_0000, 0, 0x7000_0000;
      IsInt32(a) && IsInt32(b) && IsInt32(c) && Sub32(a, b) < 0 && Sub32(b, c) < 0 && Sub32(c, a) < 0
  {
  }
}
