/** The abstract side of the red-black tree: what a linked structure of nodes stands for.
    A Shape is the tree read from the links; a Path is the part of the tree around one
    position (the way from that position back to the root), so that code which climbs
    through parent links is a walk up a Path.  Every tree position carries an Entry: the
    node itself with its user data, and the chain of further nodes holding an equal key.
    Entries mention node identities, so a statement about the sequence of entries is a
    statement about which objects are in the tree, in what order, with what data. */
module RbShape {
  datatype Color = Red | Black

  class Node<D> {
    var left: Node?<D>
    var right: Node?<D>
    var parent: Node?<D>
    var next: Node?<D>
    var color: Color
    var data: D

    constructor (zero: D)
      ensures left == null && right == null && parent == null && next == null
      ensures color == Red && data == zero
    {
      left, right, parent, next := null, null, null, null;
      color, data := Red, zero;
    }
  }

  datatype Item<D> = Item(node: Node<D>, data: D)

  datatype Entry<D> = Entry(head: Item<D>, chain: seq<Item<D>>)

  datatype Shape<D> =
    | Leaf
    | Fork(left: Shape<D>, color: Color, entry: Entry<D>, right: Shape<D>)

  datatype Path<D> =
    | Top
    | InLeft(color: Color, entry: Entry<D>, right: Shape<D>, up: Path<D>)
    | InRight(left: Shape<D>, color: Color, entry: Entry<D>, up: Path<D>)

  // ---------- reading shapes and paths ----------

  ghost function Root<D>(s: Shape<D>): Node?<D> {
    if s.Leaf? then null else s.entry.head.node
  }

  ghost function ParentOf<D>(p: Path<D>): Node?<D> {
    if p.Top? then null else p.entry.head.node
  }

  ghost function Nodes<D>(s: Shape<D>): set<Node<D>> {
    match s
    case Leaf => {}
    case Fork(l, _, e, r) => {e.head.node} + Nodes(l) + Nodes(r)
  }

  ghost function PathNodes<D>(p: Path<D>): set<Node<D>> {
    match p
    case Top => {}
    case InLeft(_, e, r, up) => {e.head.node} + Nodes(r) + PathNodes(up)
    case InRight(l, _, e, up) => {e.head.node} + Nodes(l) + PathNodes(up)
  }

  /** No node stands at two positions. */
  ghost predicate Apart<D>(s: Shape<D>) {
    match s
    case Leaf => true
    case Fork(l, _, e, r) =>
      && e.head.node !in Nodes(l) + Nodes(r)
      && Nodes(l) !! Nodes(r)
      && Apart(l) && Apart(r)
  }

  ghost predicate PathApart<D>(p: Path<D>) {
    match p
    case Top => true
    case InLeft(_, e, s, up) =>
      && e.head.node !in Nodes(s) + PathNodes(up)
      && Nodes(s) !! PathNodes(up)
      && Apart(s) && PathApart(up)
    case InRight(s, _, e, up) =>
      && e.head.node !in Nodes(s) + PathNodes(up)
      && Nodes(s) !! PathNodes(up)
      && Apart(s) && PathApart(up)
  }

  ghost function Entries<D>(s: Shape<D>): seq<Entry<D>> {
    match s
    case Leaf => []
    case Fork(l, _, e, r) => Entries(l) + [e] + Entries(r)
  }

  /** The entries on either side of the position a path leads to. */
  ghost function Before<D>(p: Path<D>): seq<Entry<D>> {
    match p
    case Top => []
    case InLeft(_, _, _, up) => Before(up)
    case InRight(l, _, e, up) => Before(up) + Entries(l) + [e]
  }

  ghost function After<D>(p: Path<D>): seq<Entry<D>> {
    match p
    case Top => []
    case InLeft(_, e, r, up) => [e] + Entries(r) + After(up)
    case InRight(_, _, _, up) => After(up)
  }

  ghost function Plug<D>(p: Path<D>, s: Shape<D>): Shape<D>
    decreases p
  {
    match p
    case Top => s
    case InLeft(c, e, r, up) => Plug(up, Fork(s, c, e, r))
    case InRight(l, c, e, up) => Plug(up, Fork(l, c, e, s))
  }

  ghost function RotatedLeft<D>(s: Shape<D>): Shape<D>
    requires s.Fork? && s.right.Fork?
  {
    var r := s.right;
    Fork(Fork(s.left, s.color, s.entry, r.left), r.color, r.entry, r.right)
  }

  ghost function RotatedRight<D>(s: Shape<D>): Shape<D>
    requires s.Fork? && s.left.Fork?
  {
    var l := s.left;
    Fork(l.left, l.color, l.entry, Fork(l.right, s.color, s.entry, s.right))
  }

  lemma Regroup<T>(a: seq<T>, x: T, b: seq<T>, y: T, c: seq<T>)
    ensures (a + [x] + b) + [y] + c == a + [x] + (b + [y] + c)
  {
  }

  /** A rotation moves no entry past another. */
  lemma RotationKeepsOrder<D>(s: Shape<D>)
    requires s.Fork?
    ensures s.left.Fork? ==> Entries(RotatedRight(s)) == Entries(s)
    ensures s.right.Fork? ==> Entries(RotatedLeft(s)) == Entries(s)
  {
    var l, r := s.left, s.right;
    if l.Fork? {
      assert Entries(RotatedRight(s).right) == Entries(l.right) + [s.entry] + Entries(r);
      Regroup(Entries(l.left), l.entry, Entries(l.right), s.entry, Entries(r));
    }
    if r.Fork? {
      assert Entries(RotatedLeft(s).left) == Entries(l) + [s.entry] + Entries(r.left);
      Regroup(Entries(l), s.entry, Entries(r.left), r.entry, Entries(r.right));
    }
  }

  /** What a left rotation moves, seen from the position left open below the new top. */
  lemma RotationPlaces<D>(p: Path<D>, s: Shape<D>)
    requires s.Fork? && s.right.Fork? && PathApart(p) && Apart(s) && PathNodes(p) !! Nodes(s)
    ensures var r, t, q := s.right, RotatedLeft(s).left, InLeft(s.right.color, s.right.entry, s.right.right, p);
      && Apart(r) && Apart(r.left) && Apart(t) && PathApart(q)
      && PathNodes(q) !! Nodes(t) && PathNodes(q) !! Nodes(r.left) && PathNodes(p) !! Nodes(r)
      && PathNodes(q) <= PathNodes(p) + Nodes(s) && Nodes(t) <= Nodes(s) && Nodes(r) <= Nodes(s)
  {
    assert Apart(s.right);
  }

  lemma RotationPlacesRight<D>(p: Path<D>, s: Shape<D>)
    requires s.Fork? && s.left.Fork? && PathApart(p) && Apart(s) && PathNodes(p) !! Nodes(s)
    ensures var l, t, q := s.left, RotatedRight(s).right, InRight(s.left.left, s.left.color, s.left.entry, p);
      && Apart(l) && Apart(l.right) && Apart(t) && PathApart(q)
      && PathNodes(q) !! Nodes(t) && PathNodes(q) !! Nodes(l.right) && PathNodes(p) !! Nodes(l)
      && PathNodes(q) <= PathNodes(p) + Nodes(s) && Nodes(t) <= Nodes(s) && Nodes(l) <= Nodes(s)
  {
    assert Apart(s.left);
  }

  ghost function SiblingOf<D>(p: Path<D>): Shape<D>
    requires !p.Top?
  {
    if p.InLeft? then p.right else p.left
  }

  ghost function Paint<D>(s: Shape<D>, c: Color): Shape<D> {
    if s.Leaf? then s else Fork(s.left, c, s.entry, s.right)
  }

  /** The subtree one step up a path. */
  ghost function Grown<D>(p: Path<D>, s: Shape<D>): (g: Shape<D>)
    requires !p.Top?
    ensures g.Fork?
  {
    if p.InLeft? then Fork(s, p.color, p.entry, p.right) else Fork(p.left, p.color, p.entry, s)
  }

  /** The way to the sibling, with s standing where the path itself led. */
  ghost function Across<D>(p: Path<D>, s: Shape<D>): (q: Path<D>)
    requires !p.Top?
    ensures !q.Top? && q.up == p.up
    ensures Grown(q, SiblingOf(p)) == Grown(p, s)
  {
    if p.InLeft? then InRight(s, p.color, p.entry, p.up) else InLeft(p.color, p.entry, s, p.up)
  }

  // ---------- the nodes behind entries ----------

  ghost function ChainNodes<D>(chain: seq<Item<D>>): set<Node<D>> {
    set it | it in chain :: it.node
  }

  ghost function EntryNodes<D>(e: Entry<D>): set<Node<D>> {
    {e.head.node} + ChainNodes(e.chain)
  }

  ghost predicate Simple<D>(e: Entry<D>) {
    && e.head.node !in ChainNodes(e.chain)
    && forall i, j | 0 <= i < j < |e.chain| :: e.chain[i].node != e.chain[j].node
  }

  /** No node is behind two entries or twice behind one. */
  ghost predicate Separate<D>(es: seq<Entry<D>>) {
    && (forall e | e in es :: Simple(e))
    && forall i, j | 0 <= i < j < |es| :: EntryNodes(es[i]) !! EntryNodes(es[j])
  }

  // ---------- the red-black rules ----------

  ghost function ColorOf<D>(s: Shape<D>): Color {
    if s.Leaf? then Black else s.color
  }

  ghost function Weight(c: Color): nat {
    if c == Black then 1 else 0
  }

  ghost function BlackHeight<D>(s: Shape<D>): nat {
    if s.Leaf? then 0 else BlackHeight(s.left) + Weight(s.color)
  }

  /** Equally many black nodes on every way down to a missing child. */
  ghost predicate Balanced<D>(s: Shape<D>) {
    s.Fork? ==>
      Balanced(s.left) && Balanced(s.right) && BlackHeight(s.left) == BlackHeight(s.right)
  }

  ghost predicate NoRedRed<D>(s: Shape<D>) {
    s.Fork? ==>
      && NoRedRed(s.left) && NoRedRed(s.right)
      && (s.color == Red ==> ColorOf(s.left) == Black && ColorOf(s.right) == Black)
  }

  ghost predicate RedBlack<D>(s: Shape<D>) {
    ColorOf(s) == Black && NoRedRed(s) && Balanced(s)
  }

  /** The surroundings p accept, at their open position, a subtree of black height h whose
      root has color c. */
  ghost predicate Fits<D>(p: Path<D>, h: nat, c: Color)
    decreases p
  {
    match p
    case Top => c == Black
    case InLeft(pc, _, s, up) => FitsAt(pc, s, h, c) && Fits(up, h + Weight(pc), pc)
    case InRight(s, pc, _, up) => FitsAt(pc, s, h, c) && Fits(up, h + Weight(pc), pc)
  }

  ghost predicate FitsAt<D>(pc: Color, s: Shape<D>, h: nat, c: Color) {
    && (pc == Red ==> c == Black && ColorOf(s) == Black)
    && NoRedRed(s) && Balanced(s) && BlackHeight(s) == h
  }

  /** One step up a path. */
  lemma GrownFits<D>(p: Path<D>, s: Shape<D>)
    requires !p.Top?
    ensures var g := Grown(p, s);
      Balanced(g) && NoRedRed(g) && Fits(p.up, BlackHeight(g), ColorOf(g))
      <==> Balanced(s) && NoRedRed(s) && Fits(p, BlackHeight(s), ColorOf(s))
  {
  }

  lemma {:induction false} PlugRedBlack<D>(p: Path<D>, s: Shape<D>)
    ensures RedBlack(Plug(p, s)) <==>
            Balanced(s) && NoRedRed(s) && Fits(p, BlackHeight(s), ColorOf(s))
    decreases p
  {
    if !p.Top? {
      PlugRedBlack(p.up, Grown(p, s));
      GrownFits(p, s);
    }
  }

  lemma {:induction false} PlugEntries<D>(p: Path<D>, s: Shape<D>)
    ensures Entries(Plug(p, s)) == Before(p) + Entries(s) + After(p)
    decreases p
  {
    if !p.Top? {
      PlugEntries(p.up, Grown(p, s));
      GrownEntries(p, s);
    }
  }

  lemma {:induction false} PlugNodes<D>(p: Path<D>, s: Shape<D>)
    ensures Nodes(Plug(p, s)) == PathNodes(p) + Nodes(s)
    ensures Apart(Plug(p, s)) <==> PathApart(p) && Apart(s) && PathNodes(p) !! Nodes(s)
    decreases p
  {
    match p
    case Top =>
    case InLeft(c, e, r, up) => PlugNodes(up, Fork(s, c, e, r));
    case InRight(l, c, e, up) => PlugNodes(up, Fork(l, c, e, s));
  }

  /** All entries of the tree that has s at the open position of p. */
  ghost function AllEntries<D>(p: Path<D>, s: Shape<D>): seq<Entry<D>> {
    Before(p) + Entries(s) + After(p)
  }

  lemma Shift<T>(a: seq<T>, b: seq<T>, c: seq<T>, d: seq<T>, e: seq<T>)
    ensures a + (b + c + d) + e == a + b + (c + d + e)
  {
  }

  lemma GrownEntries<D>(p: Path<D>, s: Shape<D>)
    requires !p.Top?
    ensures AllEntries(p.up, Grown(p, s)) == AllEntries(p, s)
  {
    var b, e, a := Before(p.up), Entries(s), After(p.up);
    if p.InLeft? {
      Shift(b, e, [p.entry], Entries(p.right), a);
    } else {
      Shift(b, Entries(p.left), [p.entry], e, a);
      assert b + Entries(p.left) + [p.entry] + e + a == b + (Entries(p.left) + [p.entry] + e) + a;
    }
  }

  // ---------- insertion ----------

  /** A red node has arrived at the open position of p; only its parent may object. */
  ghost predicate NewRed<D>(p: Path<D>, s: Shape<D>) {
    s.Fork? && s.color == Red && NoRedRed(s) && Balanced(s) && Fits(p, BlackHeight(s), Black)
  }

  /** The last step: parent black, grandparent red, and the grandparent rotated down. */
  ghost function Outer<D>(p: Path<D>, s: Shape<D>): (g: Shape<D>)
    requires !p.Top? && !p.up.Top?
  {
    Paint(Grown(p.up, Paint(Grown(p, s), Black)), Red)
  }

  lemma OuterRotated<D>(p: Path<D>, s: Shape<D>)
    requires NewRed(p, s) && !p.Top? && !p.up.Top? && p.color == Red && ColorOf(SiblingOf(p.up)) == Black
    requires p.InLeft? <==> p.up.InLeft?
    ensures var g := if p.InLeft? then RotatedRight(Outer(p, s)) else RotatedLeft(Outer(p, s));
      && Balanced(g) && NoRedRed(g) && Fits(p.up.up, BlackHeight(g), ColorOf(g))
      && AllEntries(p.up.up, g) == AllEntries(p, s)
  {
    GrownEntries(p, s);
    GrownEntries(p.up, Grown(p, s));
    RotationKeepsOrder(Outer(p, s));
    assert FitsAt(p.color, SiblingOf(p), BlackHeight(s), Black);
    assert Fits(p.up, BlackHeight(s), Red);
    assert FitsAt(p.up.color, SiblingOf(p.up), BlackHeight(s), Red);
  }

  /** A red uncle: parent and uncle turn black, and the grandparent is the next new red. */
  ghost function Recolored<D>(p: Path<D>, s: Shape<D>): Shape<D>
    requires !p.Top? && !p.up.Top?
  {
    Paint(Grown(Across(p.up, Paint(Grown(p, s), Black)), Paint(SiblingOf(p.up), Black)), Red)
  }

  lemma RecoloredIsNewRed<D>(p: Path<D>, s: Shape<D>)
    requires NewRed(p, s) && !p.Top? && !p.up.Top? && p.color == Red && ColorOf(SiblingOf(p.up)) == Red
    ensures NewRed(p.up.up, Recolored(p, s))
    ensures AllEntries(p.up.up, Recolored(p, s)) == AllEntries(p, s)
  {
    GrownEntries(p, s);
    GrownEntries(p.up, Grown(p, s));
    assert Entries(Paint(Grown(p, s), Black)) == Entries(Grown(p, s));
    assert Entries(Paint(SiblingOf(p.up), Black)) == Entries(SiblingOf(p.up));
    assert Entries(Recolored(p, s)) == Entries(Grown(p.up, Grown(p, s)));
    assert FitsAt(p.color, SiblingOf(p), BlackHeight(s), Black);
    assert Fits(p.up, BlackHeight(s), Red);
    assert FitsAt(p.up.color, SiblingOf(p.up), BlackHeight(s), Red);
  }

  /** An inner grandchild: after rotating the parent, the old parent is an outer one. */
  ghost function Straightened<D>(p: Path<D>, s: Shape<D>): (r: (Path<D>, Shape<D>))
    requires !p.Top? && s.Fork?
  {
    if p.InLeft? then
      (InRight(s.left, s.color, s.entry, p.up), Fork(s.right, p.color, p.entry, p.right))
    else
      (InLeft(s.color, s.entry, s.right, p.up), Fork(p.left, p.color, p.entry, s.left))
  }

  lemma StraightenedIsNewRed<D>(p: Path<D>, s: Shape<D>)
    requires NewRed(p, s) && !p.Top? && p.color == Red
    ensures var (q, r) := Straightened(p, s);
      && NewRed(q, r) && q.color == Red && AllEntries(q, r) == AllEntries(p, s)
      && Grown(q, r) == if p.InLeft? then RotatedRight(Grown(p, s)) else RotatedLeft(Grown(p, s))
  {
    var (q, r) := Straightened(p, s);
    GrownEntries(p, s);
    GrownEntries(q, r);
    RotationKeepsOrder(Grown(p, s));
    assert FitsAt(p.color, SiblingOf(p), BlackHeight(s), Black);
  }

  // ---------- removal ----------

  /** p with another parent color, sibling or outer part. */
  ghost function With<D>(p: Path<D>, c: Color, o: Shape<D>, up: Path<D>): (q: Path<D>)
    requires !p.Top?
    ensures !q.Top? && q.up == up && q.entry == p.entry && q.color == c && SiblingOf(q) == o
    ensures q.InLeft? <==> p.InLeft?
  {
    if p.InLeft? then InLeft(c, p.entry, o, up) else InRight(o, c, p.entry, up)
  }

  ghost function Steps<D>(p: Path<D>): nat {
    if p.Top? then 0 else 1 + Steps(p.up)
  }

  /** The same entries stand before and after the open position. */
  ghost predicate SameSides<D>(p: Path<D>, q: Path<D>) {
    Before(p) == Before(q) && After(p) == After(q)
  }

  /** The open position needs a subtree of black height h + 1, but what stands there counts
      for only h. */
  ghost predicate Short<D>(p: Path<D>, h: nat) {
    Fits(p, h + 1, Black)
  }

  /** The open position takes a subtree of black height h, even a red one. */
  ghost predicate Filled<D>(p: Path<D>, h: nat) {
    p.Top? || Fits(p, h, Red)
  }

  /** The way to a node after its parent has been rotated towards it. */
  ghost function Lowered<D>(p: Path<D>): (q: Path<D>)
    requires !p.Top? && SiblingOf(p).Fork?
    ensures !q.Top? && !q.up.Top? && q.up.up == p.up
  {
    var o := SiblingOf(p);
    if p.InLeft? then InLeft(p.color, p.entry, o.left, InLeft(o.color, o.entry, o.right, p.up))
    else InRight(o.right, p.color, p.entry, InRight(o.left, o.color, o.entry, p.up))
  }

  lemma LoweredSides<D>(p: Path<D>)
    requires !p.Top? && SiblingOf(p).Fork?
    ensures SameSides(p, Lowered(p))
  {
    var o, up := SiblingOf(p), p.up;
    if p.InLeft? {
      assert After(Lowered(p)) == [p.entry] + Entries(o.left) + ([o.entry] + Entries(o.right) + After(up));
      assert Entries(o) == Entries(o.left) + [o.entry] + Entries(o.right);
    } else {
      assert Before(Lowered(p)) == (Before(up) + Entries(o.left) + [o.entry]) + Entries(o.right) + [p.entry];
      assert Entries(o) == Entries(o.left) + [o.entry] + Entries(o.right);
    }
  }

  lemma WithSides<D>(p: Path<D>, c: Color, o: Shape<D>)
    requires !p.Top? && Entries(o) == Entries(SiblingOf(p))
    ensures SameSides(p, With(p, c, o, p.up))
  {
  }

  lemma PaintEntries<D>(s: Shape<D>, c: Color)
    ensures Entries(Paint(s, c)) == Entries(s)
  {
  }

  ghost predicate BlackChildren<D>(s: Shape<D>) {
    s.Fork? ==> ColorOf(s.left) == Black && ColorOf(s.right) == Black
  }

  /** The child of the sibling that lies on the same side as the open position, and the other. */
  ghost function NearNephew<D>(p: Path<D>): Shape<D>
    requires !p.Top? && SiblingOf(p).Fork?
  {
    if p.InLeft? then p.right.left else p.left.right
  }

  ghost function FarNephew<D>(p: Path<D>): Shape<D>
    requires !p.Top? && SiblingOf(p).Fork?
  {
    if p.InLeft? then p.right.right else p.left.left
  }

  /** The sibling of a short position is never missing. */
  lemma SiblingExists<D>(p: Path<D>, h: nat)
    requires Short(p, h) && !p.Top?
    ensures SiblingOf(p).Fork?
    ensures FitsAt(p.color, SiblingOf(p), h + 1, Black) && Fits(p.up, h + 1 + Weight(p.color), p.color)
  {
  }

  /** Below a black sibling both nephews have the short height. */
  lemma Nephews<D>(p: Path<D>, h: nat)
    requires Short(p, h) && !p.Top? && ColorOf(SiblingOf(p)) == Black
    ensures SiblingOf(p).Fork?
    ensures BlackHeight(SiblingOf(p).left) == BlackHeight(SiblingOf(p).right) == h
    ensures var l, r := SiblingOf(p).left, SiblingOf(p).right;
      && Balanced(l) && Balanced(r) && NoRedRed(l) && NoRedRed(r)
      && (l.Fork? ==> BlackHeight(Paint(l, Black)) == BlackHeight(l.left) + 1 && (l.color == Red ==> BlackChildren(l)))
      && (r.Fork? ==> BlackHeight(Paint(r, Black)) == BlackHeight(r.left) + 1 && (r.color == Red ==> BlackChildren(r)))
  {
    SiblingExists(p, h);
  }

  lemma RedSibling<D>(p: Path<D>, h: nat)
    requires Short(p, h) && !p.Top? && ColorOf(SiblingOf(p)) == Red
    ensures var q := Lowered(With(p, Red, Paint(SiblingOf(p), Black), p.up));
      Short(q, h) && SameSides(p, q) && q.color == Red && ColorOf(SiblingOf(q)) == Black
  {
    SiblingExists(p, h);
    var p' := With(p, Red, Paint(SiblingOf(p), Black), p.up);
    LoweredSides(p');
    assert Fits(Lowered(p').up, h + 1, Red);
  }

  lemma BlackFamily<D>(p: Path<D>, h: nat, up: Path<D>)
    requires Short(p, h) && !p.Top? && ColorOf(SiblingOf(p)) == Black && BlackChildren(SiblingOf(p))
    requires SameSides(p.up, up) && (if p.color == Red then up == p.up else Filled(up, h + 1))
    ensures p.color == Black ==> Short(p.up, h + 1)
    ensures var q := With(p, Black, Paint(SiblingOf(p), Red), up); Filled(q, h) && SameSides(p, q)
  {
    SiblingExists(p, h);
  }

  lemma RedNearNephew<D>(p: Path<D>, h: nat)
    requires Short(p, h) && !p.Top? && ColorOf(SiblingOf(p)) == Black && SiblingOf(p).Fork?
    requires ColorOf(NearNephew(p)) == Red && ColorOf(FarNephew(p)) == Black
    ensures var o := SiblingOf(p);
      var o' := if p.InLeft? then RotatedRight(Fork(Paint(o.left, Black), Red, o.entry, o.right))
                else RotatedLeft(Fork(o.left, Red, o.entry, Paint(o.right, Black)));
      var q := With(p, p.color, o', p.up);
      Short(q, h) && SameSides(p, q) && ColorOf(o') == Black && ColorOf(FarNephew(q)) == Red
  {
    SiblingExists(p, h);
    Nephews(p, h);
    var o := SiblingOf(p);
    PaintEntries(o.left, Black);
    PaintEntries(o.right, Black);
    var o1 := if p.InLeft? then Fork(Paint(o.left, Black), Red, o.entry, o.right)
              else Fork(o.left, Red, o.entry, Paint(o.right, Black));
    assert Entries(o1) == Entries(o);
    RotationKeepsOrder(o1);
    WithSides(p, p.color, if p.InLeft? then RotatedRight(o1) else RotatedLeft(o1));
  }

  lemma RedFarNephew<D>(p: Path<D>, h: nat)
    requires Short(p, h) && !p.Top? && ColorOf(SiblingOf(p)) == Black && SiblingOf(p).Fork?
    requires ColorOf(FarNephew(p)) == Red
    ensures var o := SiblingOf(p);
      var o' := if p.InLeft? then Fork(o.left, p.color, o.entry, Paint(o.right, Black))
                else Fork(Paint(o.left, Black), p.color, o.entry, o.right);
      var q := Lowered(With(p, Black, o', p.up));
      Filled(q, h) && SameSides(p, q)
  {
    SiblingExists(p, h);
    Nephews(p, h);
    var o := SiblingOf(p);
    var o' := if p.InLeft? then Fork(o.left, p.color, o.entry, Paint(o.right, Black))
              else Fork(Paint(o.left, Black), p.color, o.entry, o.right);
    PaintEntries(o.left, Black);
    PaintEntries(o.right, Black);
    assert Entries(o') == Entries(o);
    WithSides(p, Black, o');
    LoweredSides(With(p, Black, o', p.up));
    assert Fits(Lowered(With(p, Black, o', p.up)).up, h + 1, Black);
  }

  /** The only child of a node with at most one. */
  ghost function OnlyChild<D>(s: Shape<D>): Shape<D>
    requires s.Fork?
  {
    if s.right.Fork? then s.right else s.left
  }

  lemma OneChild<D>(p: Path<D>, s: Shape<D>)
    requires RedBlack(Plug(p, s)) && s.Fork? && (s.left.Leaf? || s.right.Leaf?)
    ensures var c := OnlyChild(s);
      && Balanced(c) && NoRedRed(c)
      && (s.color == Black ==> Short(p, BlackHeight(c)) && (c.Leaf? || c.color == Red))
      && (s.color == Red ==> !p.Top? && c.Leaf? && Filled(p, BlackHeight(c)))
  {
    PlugRedBlack(p, s);
  }

  lemma RefilledRules<D>(p: Path<D>, c: Shape<D>)
    requires Filled(p, BlackHeight(c)) && Balanced(c) && NoRedRed(c)
    requires p.Top? ==> c.Leaf? || c.color == Red
    ensures RedBlack(if p.Top? then Paint(c, Black) else Plug(p, c))
  {
    if !p.Top? {
      PlugRedBlack(p, c);
      FitsBlack(p, BlackHeight(c));
    }
  }

  lemma FitsBlack<D>(p: Path<D>, h: nat)
    requires Fits(p, h, Red)
    ensures Fits(p, h, Black)
  {
  }

  /** A node of one color put in the place of one of the other color always breaks the rules. */
  lemma OtherColor<D>(p: Path<D>, s: Shape<D>, c: Color, e: Entry<D>)
    requires s.Fork? && RedBlack(Plug(p, s))
    ensures RedBlack(Plug(p, Fork(s.left, c, e, s.right))) <==> c == s.color
  {
    PlugRedBlack(p, s);
    PlugRedBlack(p, Fork(s.left, c, e, s.right));
  }

  // ---------- exchanging a node with its predecessor ----------

  ghost function Append<D>(q: Path<D>, base: Path<D>): Path<D> {
    match q
    case Top => base
    case InLeft(c, e, s, up) => InLeft(c, e, s, Append(up, base))
    case InRight(s, c, e, up) => InRight(s, c, e, Append(up, base))
  }

  /** q only ever goes right. */
  ghost predicate Spine<D>(q: Path<D>) {
    q.Top? || (q.InRight? && Spine(q.up))
  }

  /** The whole shape s with the entry at the end of the spine q of its left subtree, and the
      shape after that entry and the root entry have changed places. */
  ghost function Swapped<D>(s: Shape<D>, q: Path<D>, m: Shape<D>): Shape<D>
    requires s.Fork? && m.Fork?
  {
    Fork(Plug(q, Fork(m.left, m.color, s.entry, m.right)), s.color, m.entry, s.right)
  }

  lemma {:induction false} AppendPlug<D>(q: Path<D>, base: Path<D>, s: Shape<D>)
    ensures Plug(Append(q, base), s) == Plug(base, Plug(q, s))
    decreases q
  {
    if !q.Top? { AppendPlug(q.up, base, Grown(q, s)); }
  }

  lemma {:induction false} AppendNodes<D>(q: Path<D>, base: Path<D>)
    ensures PathNodes(Append(q, base)) == PathNodes(q) + PathNodes(base)
  {
    if !q.Top? { AppendNodes(q.up, base); }
  }

  lemma {:induction false} AppendSides<D>(q: Path<D>, base: Path<D>)
    ensures Before(Append(q, base)) == Before(base) + Before(q)
    ensures After(Append(q, base)) == After(q) + After(base)
  {
    match q
    case Top =>
    case InLeft(_, e, o, up) =>
      AppendSides(up, base);
    case InRight(o, _, e, up) =>
      AppendSides(up, base);
      assert Before(base) + Before(up) + Entries(o) + [e] == Before(base) + (Before(up) + Entries(o) + [e]);
  }

  lemma {:induction false} SpineAfter<D>(q: Path<D>)
    requires Spine(q)
    ensures After(q) == []
  {
    if !q.Top? { SpineAfter(q.up); }
  }

  /** The red-black rules do not look at entries. */
  lemma {:induction false} SwappedRulesUp<D>(q: Path<D>, m: Shape<D>, m': Shape<D>)
    requires m.Fork? && m'.Fork? && m.color == m'.color && BlackHeight(m) == BlackHeight(m')
    requires (Balanced(m) <==> Balanced(m')) && (NoRedRed(m) <==> NoRedRed(m'))
    ensures var s, s' := Plug(q, m), Plug(q, m');
      && s.Fork? && s'.Fork? && s.color == s'.color && BlackHeight(s) == BlackHeight(s')
      && (Balanced(s) <==> Balanced(s')) && (NoRedRed(s) <==> NoRedRed(s'))
    decreases q
  {
    if !q.Top? { SwappedRulesUp(q.up, Grown(q, m), Grown(q, m')); }
  }

  lemma SwapKeepsRules<D>(p: Path<D>, s: Shape<D>, q: Path<D>, m: Shape<D>)
    requires s.Fork? && m.Fork? && s.left == Plug(q, m)
    ensures RedBlack(Plug(p, s)) <==> RedBlack(Plug(p, Swapped(s, q, m)))
  {
    SwappedRulesUp(q, m, Fork(m.left, m.color, s.entry, m.right));
    PlugRedBlack(p, s);
    PlugRedBlack(p, Swapped(s, q, m));
  }

  /** The positions of the swapped tree are still taken by different nodes. */
  lemma SwapPlaces<D>(s: Shape<D>, q: Path<D>, m: Shape<D>)
    requires s.Fork? && m.Fork? && s.left == Plug(q, m) && Apart(s)
    ensures PathApart(q) && Apart(m) && PathNodes(q) !! Nodes(m)
    ensures s.entry.head.node !in PathNodes(q) + Nodes(m)
    ensures Apart(Swapped(s, q, m)) && Nodes(Swapped(s, q, m)) == Nodes(s)
  {
    var n, k := s.entry.head.node, m.entry.head.node;
    var m' := Fork(m.left, m.color, s.entry, m.right);
    PlugNodes(q, m);
    PlugNodes(q, m');
    assert Apart(m);
    assert Nodes(m) == {k} + (Nodes(m.left) + Nodes(m.right));
    assert Nodes(m') == {n} + (Nodes(m.left) + Nodes(m.right));
    assert Apart(m');
    assert Apart(Plug(q, m'));
  }

  lemma SwapNodes<D>(s: Shape<D>, q: Path<D>, m: Shape<D>)
    requires s.Fork? && m.Fork? && s.left == Plug(q, m)
    ensures PathNodes(q) <= Nodes(s) && Nodes(m) <= Nodes(s) && Nodes(s.right) <= Nodes(s)
    ensures Nodes(m.left) <= Nodes(s) && Nodes(m.right) <= Nodes(s)
    ensures {s.entry.head.node, m.entry.head.node} <= Nodes(s)
  {
    hide Apart;
    hide PathApart;
    PlugNodes(q, m);
  }

  // ---------- the entries on either side of the root of a subtree ----------

  ghost function LeftOf<D>(p: Path<D>, s: Shape<D>): seq<Entry<D>>
    requires s.Fork?
  {
    Before(p) + Entries(s.left)
  }

  ghost function RightOf<D>(p: Path<D>, s: Shape<D>): seq<Entry<D>>
    requires s.Fork?
  {
    Entries(s.right) + After(p)
  }

  lemma Flatten<T>(a: seq<T>, b: seq<T>, x: T, c: seq<T>, d: seq<T>)
    ensures a + (b + [x] + c) + d == (a + b) + [x] + (c + d)
  {
  }

  lemma Sides<D>(p: Path<D>, s: Shape<D>)
    requires s.Fork?
    ensures Entries(Plug(p, s)) == LeftOf(p, s) + [s.entry] + RightOf(p, s)
  {
    PlugEntries(p, s);
    Flatten(Before(p), Entries(s.left), s.entry, Entries(s.right), After(p));
  }

  lemma {:induction false} HeadsWithin<D>(s: Shape<D>, xs: set<Node<D>>)
    requires forall e | e in Entries(s) :: e.head.node in xs
    ensures Nodes(s) <= xs
  {
    if s.Fork? {
      assert s.entry in Entries(s);
      HeadsWithin(s.left, xs);
      HeadsWithin(s.right, xs);
    }
  }
}
