/** Restoring the red-black rules after an insertion or before a removal. */
module RbRebalance {
  import opened RbShape
  import opened RbTree

  function Grandparent<D(!new)>(n: Node<D>): Node?<D>
    requires n.parent != null
    reads n, n.parent
  {
    n.parent.parent
  }

  function Sibling<D(!new)>(n: Node<D>): Node?<D>
    requires n.parent != null
    reads n, n.parent
  {
    if n == n.parent.left then n.parent.right else n.parent.left
  }

  function Uncle<D(!new)>(n: Node<D>): Node?<D>
    requires n.parent != null && n.parent.parent != null
    reads n, n.parent, n.parent.parent
  {
    Sibling(n.parent)
  }

  method SetColor<D(!new)>(t: RbTree<D>, n: Node<D>, c: Color, ghost p: Path<D>, ghost s: Shape<D>)
    requires t.Focused(p, s) && s.Fork? && n == s.entry.head.node
    modifies n`color
    ensures t.Focused(p, Paint(s, c))
  {
    n.color := c;
  }

  // ---------- insertion ----------

  /** s' is a red-black arrangement of the entries of s in p. */
  ghost predicate Restored<D(!new)>(t: RbTree<D>, p: Path<D>, s: Shape<D>, s': Shape<D>)
    reads t, t.Repr
  {
    t.Focused(Top, s') && RedBlack(s') && Entries(s') == AllEntries(p, s)
  }

  lemma Settle<D(!new)>(t: RbTree<D>, p: Path<D>, s: Shape<D>)
    requires t.Focused(p, s) && Balanced(s) && NoRedRed(s) && Fits(p, BlackHeight(s), ColorOf(s))
    ensures Restored(t, p, s, Plug(p, s))
  {
    t.Whole(p, s);
    PlugRedBlack(p, s);
    PlugEntries(p, s);
  }

  method InsertCase5<D(!new)>(t: RbTree<D>, n: Node<D>, ghost p: Path<D>, ghost s: Shape<D>)
      returns (ghost s': Shape<D>)
    requires t.Focused(p, s) && NewRed(p, s) && n == s.entry.head.node
    requires !p.Top? && !p.up.Top? && p.color == Red && ColorOf(SiblingOf(p.up)) == Black
    requires p.InLeft? <==> p.up.InLeft?
    modifies t`root, t.Repr`left, t.Repr`right, t.Repr`parent, t.Repr`color
    ensures Restored(t, p, s, s')
  {
    hide RbTree.Focused;
    OuterRotated(p, s);
    t.Local(p, s);
    t.Refocus(p, s);
    t.Local(p.up, Grown(p, s));
    SetColor(t, n.parent, Black, p.up, Grown(p, s));
    ghost var f := Paint(Grown(p, s), Black);
    t.Refocus(p.up, f);
    SetColor(t, Grandparent(n), Red, p.up.up, Grown(p.up, f));
    ghost var g := Outer(p, s);
    if n == n.parent.left && n.parent == Grandparent(n).left {
      t.RotateRight(Grandparent(n), p.up.up, g);
      g := RotatedRight(g);
    } else {
      t.RotateLeft(Grandparent(n), p.up.up, g);
      g := RotatedLeft(g);
    }
    Settle(t, p.up.up, g);
    s' := Plug(p.up.up, g);
  }

  method InsertCase4<D(!new)>(t: RbTree<D>, n: Node<D>, ghost p: Path<D>, ghost s: Shape<D>)
      returns (ghost s': Shape<D>)
    requires t.Focused(p, s) && NewRed(p, s) && n == s.entry.head.node
    requires !p.Top? && !p.up.Top? && p.color == Red && ColorOf(SiblingOf(p.up)) == Black
    modifies t`root, t.Repr`left, t.Repr`right, t.Repr`parent, t.Repr`color
    ensures Restored(t, p, s, s')
  {
    hide RbTree.Focused;
    t.Local(p, s);
    t.Refocus(p, s);
    t.Local(p.up, Grown(p, s));
    var n' := n;
    ghost var q, r := p, s;
    if n == n.parent.right && n.parent == Grandparent(n).left {
      t.RotateLeft(n.parent, p.up, Grown(p, s));
      ghost var (q', r') := Straightened(p, s);
      StraightenedIsNewRed(p, s);
      t.Refocus(q', r');
      t.Local(q', r');
      q, r := q', r';
      n' := n.left;
    } else if n == n.parent.left && n.parent == Grandparent(n).right {
      t.RotateRight(n.parent, p.up, Grown(p, s));
      ghost var (q', r') := Straightened(p, s);
      StraightenedIsNewRed(p, s);
      t.Refocus(q', r');
      t.Local(q', r');
      q, r := q', r';
      n' := n.right;
    }
    s' := InsertCase5(t, n', q, r);
  }

  method InsertCase3<D(!new)>(t: RbTree<D>, n: Node<D>, ghost p: Path<D>, ghost s: Shape<D>)
      returns (ghost s': Shape<D>)
    requires t.Focused(p, s) && NewRed(p, s) && n == s.entry.head.node
    requires !p.Top? && !p.up.Top? && p.color == Red
    modifies t`root, t.Repr`left, t.Repr`right, t.Repr`parent, t.Repr`color
    ensures Restored(t, p, s, s')
    decreases p, 0
  {
    hide RbTree.Focused;
    t.Local(p, s);
    t.Refocus(p, s);
    t.Local(p.up, Grown(p, s));
    if NodeColor(Uncle(n)) == Red {
      var u := Uncle(n);
      SetColor(t, n.parent, Black, p.up, Grown(p, s));
      ghost var f := Paint(Grown(p, s), Black);
      t.Refocus(p.up, f);
      ghost var q := Across(p.up, f);
      t.Refocus(q, SiblingOf(p.up));
      SetColor(t, Uncle(n), Black, q, SiblingOf(p.up));
      t.Refocus(q, Paint(SiblingOf(p.up), Black));
      SetColor(t, Grandparent(n), Red, p.up.up, Grown(q, Paint(SiblingOf(p.up), Black)));
      RecoloredIsNewRed(p, s);
      s' := InsertCase1(t, Grandparent(n), p.up.up, Recolored(p, s));
    } else {
      s' := InsertCase4(t, n, p, s);
    }
  }

  method InsertCase2<D(!new)>(t: RbTree<D>, n: Node<D>, ghost p: Path<D>, ghost s: Shape<D>)
      returns (ghost s': Shape<D>)
    requires t.Focused(p, s) && NewRed(p, s) && n == s.entry.head.node && !p.Top?
    modifies t`root, t.Repr`left, t.Repr`right, t.Repr`parent, t.Repr`color
    ensures Restored(t, p, s, s')
    decreases p, 1
  {
    hide RbTree.Focused;
    t.Local(p, s);
    if NodeColor(n.parent) == Black {
      Settle(t, p, s);
      s' := Plug(p, s);
    } else {
      assert Fits(p.up, BlackHeight(s), Red);
      s' := InsertCase3(t, n, p, s);
    }
  }

  method InsertCase1<D(!new)>(t: RbTree<D>, n: Node<D>, ghost p: Path<D>, ghost s: Shape<D>)
      returns (ghost s': Shape<D>)
    requires t.Focused(p, s) && NewRed(p, s) && n == s.entry.head.node
    modifies t`root, t.Repr`left, t.Repr`right, t.Repr`parent, t.Repr`color
    ensures Restored(t, p, s, s')
    decreases p, 2
  {
    hide RbTree.Focused;
    t.Local(p, s);
    if n.parent == null {
      SetColor(t, n, Black, p, s);
      s' := Paint(s, Black);
    } else {
      s' := InsertCase2(t, n, p, s);
    }
  }

  // ---------- removal ----------

  method PaintParent<D(!new)>(t: RbTree<D>, n: Node<D>, c: Color, ghost p: Path<D>, ghost s: Shape<D>)
    requires t.Focused(p, s) && s.Fork? && n == s.entry.head.node && !p.Top?
    modifies {n.parent}`color
    ensures t.Focused(With(p, c, SiblingOf(p), p.up), s)
  {
    hide RbTree.Focused;
    t.Local(p, s);
    t.Refocus(p, s);
    SetColor(t, n.parent, c, p.up, Grown(p, s));
    t.Refocus(With(p, c, SiblingOf(p), p.up), s);
  }

  method PaintSibling<D(!new)>(t: RbTree<D>, n: Node<D>, c: Color, ghost p: Path<D>, ghost s: Shape<D>)
    requires t.Focused(p, s) && s.Fork? && n == s.entry.head.node && !p.Top? && SiblingOf(p).Fork?
    modifies {Root(SiblingOf(p))}`color
    ensures t.Focused(With(p, p.color, Paint(SiblingOf(p), c), p.up), s)
  {
    hide RbTree.Focused;
    t.Local(p, s);
    t.Refocus(p, s);
    ghost var q, o := Across(p, s), SiblingOf(p);
    t.Refocus(q, o);
    SetColor(t, Sibling(n), c, q, o);
    t.Refocus(q, Paint(o, c));
    t.Refocus(With(p, p.color, Paint(o, c), p.up), s);
  }

  /** sibling(n)->left->color = c */
  method PaintLeftNephew<D(!new)>(t: RbTree<D>, n: Node<D>, c: Color, ghost p: Path<D>, ghost s: Shape<D>)
    requires t.Focused(p, s) && s.Fork? && n == s.entry.head.node && !p.Top?
    requires SiblingOf(p).Fork? && SiblingOf(p).left.Fork?
    modifies {Root(SiblingOf(p).left)}`color
    ensures var o := SiblingOf(p);
      t.Focused(With(p, p.color, Fork(Paint(o.left, c), o.color, o.entry, o.right), p.up), s)
  {
    hide RbTree.Focused;
    t.Local(p, s);
    t.Refocus(p, s);
    ghost var q, o := Across(p, s), SiblingOf(p);
    t.Refocus(q, o);
    ghost var q' := InLeft(o.color, o.entry, o.right, q);
    t.Refocus(q', o.left);
    SetColor(t, Sibling(n).left, c, q', o.left);
    t.Refocus(q', Paint(o.left, c));
    ghost var o' := Fork(Paint(o.left, c), o.color, o.entry, o.right);
    t.Refocus(q, o');
    t.Refocus(With(p, p.color, o', p.up), s);
  }

  /** sibling(n)->right->color = c */
  method PaintRightNephew<D(!new)>(t: RbTree<D>, n: Node<D>, c: Color, ghost p: Path<D>, ghost s: Shape<D>)
    requires t.Focused(p, s) && s.Fork? && n == s.entry.head.node && !p.Top?
    requires SiblingOf(p).Fork? && SiblingOf(p).right.Fork?
    modifies {Root(SiblingOf(p).right)}`color
    ensures var o := SiblingOf(p);
      t.Focused(With(p, p.color, Fork(o.left, o.color, o.entry, Paint(o.right, c)), p.up), s)
  {
    hide RbTree.Focused;
    t.Local(p, s);
    t.Refocus(p, s);
    ghost var q, o := Across(p, s), SiblingOf(p);
    t.Refocus(q, o);
    ghost var q' := InRight(o.left, o.color, o.entry, q);
    t.Refocus(q', o.right);
    SetColor(t, Sibling(n).right, c, q', o.right);
    t.Refocus(q', Paint(o.right, c));
    ghost var o' := Fork(o.left, o.color, o.entry, Paint(o.right, c));
    t.Refocus(q, o');
    t.Refocus(With(p, p.color, o', p.up), s);
  }

  lemma LowerFocus<D(!new)>(t: RbTree<D>, p: Path<D>, s: Shape<D>)
    requires !p.Top? && SiblingOf(p).Fork?
    requires t.Focused(p.up, if p.InLeft? then RotatedLeft(Grown(p, s)) else RotatedRight(Grown(p, s)))
    ensures t.Focused(Lowered(p), s)
  {
    hide RbTree.Focused;
    t.Refocus(Lowered(p), s);
    t.Refocus(Lowered(p).up, Grown(Lowered(p), s));
  }

  /** p' is the way to s in a rearrangement of the rest of the tree in which every rule holds
      as soon as a subtree of black height h is put at the position of s. */
  ghost predicate Refilled<D(!new)>(t: RbTree<D>, p: Path<D>, s: Shape<D>, h: nat, p': Path<D>)
    reads t, t.Repr
  {
    t.Focused(p', s) && Filled(p', h) && SameSides(p, p')
  }

  method DeleteCase6<D(!new)>(t: RbTree<D>, n: Node<D>, ghost p: Path<D>, ghost s: Shape<D>, ghost h: nat)
      returns (ghost p': Path<D>)
    requires t.Focused(p, s) && s.Fork? && n == s.entry.head.node && Short(p, h) && !p.Top?
    requires SiblingOf(p).Fork? && ColorOf(SiblingOf(p)) == Black && ColorOf(FarNephew(p)) == Red
    modifies t`root, t.Repr`left, t.Repr`right, t.Repr`parent, t.Repr`color
    ensures Refilled(t, p, s, h, p')
  {
    hide RbTree.Focused;
    RedFarNephew(p, h);
    t.Local(p, s);
    PaintSibling(t, n, NodeColor(n.parent), p, s);
    p' := With(p, p.color, Paint(SiblingOf(p), p.color), p.up);
    t.Local(p', s);
    PaintParent(t, n, Black, p', s);
    p' := With(p', Black, SiblingOf(p'), p.up);
    t.Local(p', s);
    if n == n.parent.left {
      assert NodeColor(Sibling(n).right) == Red;
      PaintRightNephew(t, n, Black, p', s);
      ghost var o := SiblingOf(p');
      p' := With(p', Black, Fork(o.left, o.color, o.entry, Paint(o.right, Black)), p.up);
      t.Local(p', s);
      t.Refocus(p', s);
      t.RotateLeft(n.parent, p.up, Grown(p', s));
    } else {
      assert NodeColor(Sibling(n).left) == Red;
      PaintLeftNephew(t, n, Black, p', s);
      ghost var o := SiblingOf(p');
      p' := With(p', Black, Fork(Paint(o.left, Black), o.color, o.entry, o.right), p.up);
      t.Local(p', s);
      t.Refocus(p', s);
      t.RotateRight(n.parent, p.up, Grown(p', s));
    }
    LowerFocus(t, p', s);
    p' := Lowered(p');
  }

  method DeleteCase5<D(!new)>(t: RbTree<D>, n: Node<D>, ghost p: Path<D>, ghost s: Shape<D>, ghost h: nat)
      returns (ghost p': Path<D>)
    requires t.Focused(p, s) && s.Fork? && n == s.entry.head.node && Short(p, h) && !p.Top?
    requires SiblingOf(p).Fork? && ColorOf(SiblingOf(p)) == Black && !BlackChildren(SiblingOf(p))
    modifies t`root, t.Repr`left, t.Repr`right, t.Repr`parent, t.Repr`color
    ensures Refilled(t, p, s, h, p')
  {
    hide RbTree.Focused;
    t.Local(p, s);
    ghost var o := SiblingOf(p);
    p' := p;
    if n == n.parent.left && NodeColor(Sibling(n)) == Black
       && NodeColor(Sibling(n).left) == Red && NodeColor(Sibling(n).right) == Black {
      RedNearNephew(p, h);
      PaintSibling(t, n, Red, p, s);
      p' := With(p, p.color, Paint(o, Red), p.up);
      t.Local(p', s);
      PaintLeftNephew(t, n, Black, p', s);
      p' := With(p, p.color, Fork(Paint(o.left, Black), Red, o.entry, o.right), p.up);
      t.Local(p', s);
      t.Refocus(p', s);
      t.Refocus(Across(p', s), SiblingOf(p'));
      t.RotateRight(Sibling(n), Across(p', s), SiblingOf(p'));
      t.Refocus(Across(p', s), RotatedRight(SiblingOf(p')));
      t.Refocus(With(p, p.color, RotatedRight(SiblingOf(p')), p.up), s);
      p' := With(p, p.color, RotatedRight(SiblingOf(p')), p.up);
    } else if n == n.parent.right && NodeColor(Sibling(n)) == Black
       && NodeColor(Sibling(n).right) == Red && NodeColor(Sibling(n).left) == Black {
      RedNearNephew(p, h);
      PaintSibling(t, n, Red, p, s);
      p' := With(p, p.color, Paint(o, Red), p.up);
      t.Local(p', s);
      PaintRightNephew(t, n, Black, p', s);
      p' := With(p, p.color, Fork(o.left, Red, o.entry, Paint(o.right, Black)), p.up);
      t.Local(p', s);
      t.Refocus(p', s);
      t.Refocus(Across(p', s), SiblingOf(p'));
      t.RotateLeft(Sibling(n), Across(p', s), SiblingOf(p'));
      t.Refocus(Across(p', s), RotatedLeft(SiblingOf(p')));
      t.Refocus(With(p, p.color, RotatedLeft(SiblingOf(p')), p.up), s);
      p' := With(p, p.color, RotatedLeft(SiblingOf(p')), p.up);
    }
    ghost var q := p';
    p' := DeleteCase6(t, n, q, s, h);
  }

  method DeleteCase4<D(!new)>(t: RbTree<D>, n: Node<D>, ghost p: Path<D>, ghost s: Shape<D>, ghost h: nat)
      returns (ghost p': Path<D>)
    requires t.Focused(p, s) && s.Fork? && n == s.entry.head.node && Short(p, h) && !p.Top?
    requires ColorOf(SiblingOf(p)) == Black && (p.color == Black ==> !BlackChildren(SiblingOf(p)))
    modifies t`root, t.Repr`left, t.Repr`right, t.Repr`parent, t.Repr`color
    ensures Refilled(t, p, s, h, p')
  {
    hide RbTree.Focused;
    SiblingExists(p, h);
    t.Local(p, s);
    if NodeColor(n.parent) == Red && NodeColor(Sibling(n)) == Black
       && NodeColor(Sibling(n).left) == Black && NodeColor(Sibling(n).right) == Black {
      BlackFamily(p, h, p.up);
      PaintSibling(t, n, Red, p, s);
      p' := With(p, p.color, Paint(SiblingOf(p), Red), p.up);
      t.Local(p', s);
      PaintParent(t, n, Black, p', s);
      p' := With(p, Black, Paint(SiblingOf(p), Red), p.up);
    } else {
      p' := DeleteCase5(t, n, p, s, h);
    }
  }

  method DeleteCase3<D(!new)>(t: RbTree<D>, n: Node<D>, ghost p: Path<D>, ghost s: Shape<D>, ghost h: nat)
      returns (ghost p': Path<D>)
    requires t.Focused(p, s) && s.Fork? && n == s.entry.head.node && Short(p, h) && !p.Top?
    requires ColorOf(SiblingOf(p)) == Black
    modifies t`root, t.Repr`left, t.Repr`right, t.Repr`parent, t.Repr`color
    ensures Refilled(t, p, s, h, p')
    decreases if p.color == Red then 0 else Steps(p), 0
  {
    hide RbTree.Focused;
    SiblingExists(p, h);
    t.Local(p, s);
    if NodeColor(n.parent) == Black && NodeColor(Sibling(n)) == Black
       && NodeColor(Sibling(n).left) == Black && NodeColor(Sibling(n).right) == Black {
      PaintSibling(t, n, Red, p, s);
      ghost var q := With(p, Black, Paint(SiblingOf(p), Red), p.up);
      t.Local(q, s);
      t.Refocus(q, s);
      ghost var up := DeleteCase1(t, n.parent, p.up, Grown(q, s), h + 1);
      BlackFamily(p, h, up);
      p' := With(p, Black, Paint(SiblingOf(p), Red), up);
      t.Refocus(p', s);
    } else {
      p' := DeleteCase4(t, n, p, s, h);
    }
  }

  method DeleteCase2<D(!new)>(t: RbTree<D>, n: Node<D>, ghost p: Path<D>, ghost s: Shape<D>, ghost h: nat)
      returns (ghost p': Path<D>)
    requires t.Focused(p, s) && s.Fork? && n == s.entry.head.node && Short(p, h) && !p.Top?
    modifies t`root, t.Repr`left, t.Repr`right, t.Repr`parent, t.Repr`color
    ensures Refilled(t, p, s, h, p')
    decreases Steps(p), 1
  {
    hide RbTree.Focused;
    SiblingExists(p, h);
    t.Local(p, s);
    ghost var q := p;
    if NodeColor(Sibling(n)) == Red {
      RedSibling(p, h);
      PaintParent(t, n, Red, p, s);
      q := With(p, Red, SiblingOf(p), p.up);
      t.Local(q, s);
      PaintSibling(t, n, Black, q, s);
      q := With(p, Red, Paint(SiblingOf(p), Black), p.up);
      t.Local(q, s);
      t.Refocus(q, s);
      if n == n.parent.left {
        t.RotateLeft(n.parent, p.up, Grown(q, s));
      } else {
        t.RotateRight(n.parent, p.up, Grown(q, s));
      }
      LowerFocus(t, q, s);
      q := Lowered(q);
    }
    p' := DeleteCase3(t, n, q, s, h);
  }

  method DeleteCase1<D(!new)>(t: RbTree<D>, n: Node<D>, ghost p: Path<D>, ghost s: Shape<D>, ghost h: nat)
      returns (ghost p': Path<D>)
    requires t.Focused(p, s) && s.Fork? && n == s.entry.head.node && Short(p, h)
    modifies t`root, t.Repr`left, t.Repr`right, t.Repr`parent, t.Repr`color
    ensures Refilled(t, p, s, h, p')
    decreases Steps(p), 2
  {
    hide RbTree.Focused;
    t.Local(p, s);
    if n.parent == null {
      p' := p;
    } else {
      p' := DeleteCase2(t, n, p, s, h);
    }
  }
}
