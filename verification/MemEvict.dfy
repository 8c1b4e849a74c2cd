/** MemStore.removeOldest: following the smallest stamp down to its entry,
    taking the path out of the tournament, and repairing it on the way up. */
module MemEvict {
  import opened Bytes
  import opened MemTree
  import opened MemUpdate

  /** What happens to the node at the end of the descent: data leaves the
      cache, a pending request stays but loses its stamp. */
  function Evict(ns: Nodes, p: Path): Nodes
    requires IsEntry(ns, p) && |ns[p].access| > 0
  {
    var n := ns[p];
    ns[p := Node(if n.entry.value.sdata.Some? then None else n.entry, n.access[0 := 0])]
  }

  datatype Removal = Panicked | Removed(ns: Nodes, leaf: Path)

  predicate Sized(ns: Nodes) {
    forall p :: p in ns ==> |ns[p].access| == Width(p) - 1
  }

  /** The subtrees that the descent can still reach. */
  function Beneath(ns: Nodes, p: Path): set<Path> {
    set q | q in ns.Keys && p <= q
  }

  lemma BeneathChild(ns: Nodes, p: Path, d: nat)
    requires p in ns
    ensures Beneath(ns, p + [d]) < Beneath(ns, p)
  {
    forall q | q in Beneath(ns, p + [d])
      ensures q in Beneath(ns, p)
    {
      assert p <= p + [d] <= q;
    }
    assert p in Beneath(ns, p) && p !in Beneath(ns, p + [d]);
  }

  lemma ChildMeasure(ns: Nodes, c: Cell, d: Cell)
    requires c.path in ns && c.i < Width(c.path) - 1
    requires d == Left(c) || d == Right(c)
    ensures Beneath(ns, d.path) < Beneath(ns, c.path)
            || (d.path == c.path && c.i < d.i < Width(c.path) - 1)
  {
    if d.path != c.path {
      var k := d.path[|c.path|];
      assert d.path == c.path + [k];
      BeneathChild(ns, c.path, k);
    }
  }

  /** removeOldest from a cell whose value is av: each cell on the way down takes
      the value of the branch not taken, and on the way up the smaller of that
      value and the branch taken. */
  function Remove(ns: Nodes, c: Cell, av: nat): (r: Removal)
    requires Sized(ns) && c.path in ns && c.i < Width(c.path) - 1
    ensures r.Removed? ==> r.ns.Keys == ns.Keys && Sized(r.ns)
    decreases Beneath(ns, c.path), Width(c.path) - c.i
  {
    if ns[c.path].entry.Some? then Removed(Evict(ns, c.path), c.path)
    else
      var l, r := Left(c), Right(c);
      ChildMeasure(ns, c, l);
      ChildMeasure(ns, c, r);
      if l.path in ns && av == V(ns, l) then
        Rejoin(Remove(Set(ns, c, V(ns, r)), l, av), c, l)
      else if r.path in ns && av == V(ns, r) then
        Rejoin(Remove(Set(ns, c, V(ns, l)), r, av), c, r)
      else Panicked
  }

  function Rejoin(r: Removal, c: Cell, d: Cell): (r': Removal)
    requires r.Removed? ==> Sized(r.ns) && c.path in r.ns && c.i < Width(c.path) - 1
    ensures r'.Removed? ==> r.Removed? && r'.ns.Keys == r.ns.Keys && Sized(r'.ns)
  {
    if r.Removed? then Removed(Set(r.ns, c, MinNZ(V(r.ns, c), V(r.ns, d))), r.leaf) else r
  }

  /** The cells strictly above a cell. */
  function Above(c: Cell): set<Cell>
    decreases |c.path|, c.i
  {
    if c == ROOT then {} else {Up(c)} + Above(Up(c))
  }

  predicate AtOrAbove(c: Cell, d: Cell) {
    c == d || c in Above(d)
  }

  lemma {:induction false} AboveIsHigher(c: Cell, d: Cell)
    requires c in Above(d)
    ensures |c.path| < |d.path| || (|c.path| == |d.path| && c.i < d.i)
    decreases |d.path|, d.i
  {
    if d != ROOT && c != Up(d) {
      AboveIsHigher(c, Up(d));
    }
  }

  lemma {:induction false} AboveTransitive(c: Cell, d: Cell)
    requires c in Above(d) && c != ROOT
    ensures Up(c) in Above(d)
    decreases |d.path|, d.i
  {
    if c == Up(d) {
      assert Up(c) in Above(c);
    } else {
      AboveTransitive(c, Up(d));
    }
  }

  ghost predicate RemovalOk(ns: Nodes, c: Cell, av: nat, r: Removal) {
    && r.Removed? && IsEntry(ns, r.leaf) && |ns[r.leaf].access| > 0
    && V(ns, Cell(r.leaf, 0)) == av && AtOrAbove(c, Cell(r.leaf, 0))
    && Shape(r.ns) && r.ns.Keys == ns.Keys
    && r.ns[r.leaf] == Evict(ns, r.leaf)[r.leaf]
    && (forall q {:trigger r.ns[q]} :: q in ns && q != r.leaf ==> r.ns[q].entry == ns[q].entry)
    && (forall q {:trigger IsEntry(ns, q)} :: IsEntry(ns, q) && q != r.leaf ==> r.ns[q] == ns[q])
    && (forall d: Cell {:trigger V(r.ns, d)} :: !AtOrAbove(c, d) ==> V(r.ns, d) == V(ns, d))
    && AllOkBut(r.ns, Above(c))
  }

  lemma EvictedShape(ns: Nodes, p: Path)
    requires Shape(ns) && IsEntry(ns, p)
    ensures |ns[p].access| == Width(p) - 1 && Shape(Evict(ns, p))
  {
    assert NodeOk(ns, p);
    var ns' := Evict(ns, p);
    forall q | q in ns'
      ensures NodeOk(ns', q)
    {
      assert NodeOk(ns, q);
    }
  }

  lemma ParentIsInner(ns: Nodes, q: Path)
    requires Shape(ns) && q in ns && q != []
    ensures Parent(q) in ns && ns[Parent(q)].entry.None?
  {
    assert NodeOk(ns, q);
  }

  /** An entry node has no subtrees. */
  lemma EntryIsLeaf(ns: Nodes, p: Path, k: nat)
    requires Shape(ns) && IsEntry(ns, p)
    ensures p + [k] !in ns
  {
    assert Parent(p + [k]) == p;
    if p + [k] in ns {
      ParentIsInner(ns, p + [k]);
    }
  }

  lemma LeafRemoval(ns: Nodes, c: Cell)
    requires Shape(ns) && IsEntry(ns, c.path) && c.i == 0 && c.i < |ns[c.path].access|
    requires AllOkBut(ns, Above(c))
    ensures RemovalOk(ns, c, V(ns, c), Removed(Evict(ns, c.path), c.path))
  {
    var p, ns' := c.path, Evict(ns, c.path);
    EvictedShape(ns, p);
    hide Left, Right, Ok, Shape, Width;
    forall d: Cell | Inner(ns', d) && d !in Above(c)
      ensures Ok(ns', d)
    {
      if d.path == p {
        EvictedCellOk(ns, p, d.i);
      } else {
        assert Inner(ns, d);
        assert c != ROOT ==> d != Up(c);
        OtherCellOk(ns, p, d);
      }
    }
  }

  lemma EvictedCellOk(ns: Nodes, p: Path, i: nat)
    requires Shape(ns) && IsEntry(ns, p) && |ns[p].access| > 0 && i < Width(p) - 1
    ensures Ok(Evict(ns, p), Cell(p, i))
  {
    assert NodeOk(ns, p);
    if i >= Width(p) / 2 - 1 {
      EntryIsLeaf(ns, p, 2 * i + 2 - Width(p));
      EntryIsLeaf(ns, p, 2 * i + 3 - Width(p));
    }
  }

  lemma OtherCellOk(ns: Nodes, p: Path, d: Cell)
    requires Shape(ns) && IsEntry(ns, p) && |ns[p].access| > 0
    requires Inner(ns, d) && Ok(ns, d) && d.path != p && (Cell(p, 0) != ROOT ==> d != Up(Cell(p, 0)))
    ensures Ok(Evict(ns, p), d)
  {
    NodeIsCell(ns, d);
    LeftUp(d);
    RightUp(d);
    hide Left, Right, Sib, Width;
    assert NodeOk(ns, p);
  }

  /** The state in which the descent enters the chosen branch d; s is the other one. */
  lemma EnterBranch(ns: Nodes, c: Cell, d: Cell, s: Cell)
    requires Shape(ns) && Inner(ns, c) && AllOkBut(ns, Above(c)) && c.i < |ns[c.path].access|
    requires (d == Left(c) && s == Right(c)) || (d == Right(c) && s == Left(c))
    requires d.path in ns
    ensures d != ROOT && s != ROOT && Up(d) == c && Up(s) == c && d != s && d != c && s != c
    ensures Shape(Set(ns, c, V(ns, s))) && AllOkBut(Set(ns, c, V(ns, s)), Above(d))
    ensures d.i < Width(d.path) - 1 && (IsEntry(ns, d.path) ==> d.i == 0)
  {
    NodeIsCell(ns, c);
    LeftUp(c);
    RightUp(c);
    UpFamily(d);
    SetShape(ns, c, V(ns, s));
    SetFrame(ns, c, V(ns, s), Above(c));
    hide Left, Right, Shape, Width, Ok, Set, Sib;
    assert Above(d) == {c} + Above(c);
    if c != ROOT {
      assert Up(c) in Above(c);
    }
  }

  lemma NotUnderSibling(c: Cell, d: Cell, s: Cell)
    requires d != ROOT && s != ROOT && Up(d) == c && Up(s) == c && d != s
    ensures !AtOrAbove(d, s) && !AtOrAbove(d, c)
  {
    assert c in Above(d);
    AboveIsHigher(c, d);
    if d in Above(c) {
      AboveIsHigher(d, c);
    }
    assert Above(s) == {c} + Above(c);
  }

  /** Writing the repaired value makes the equation of c true again. */
  lemma LeaveBranch(n2: Nodes, c: Cell, d: Cell, s: Cell)
    requires Shape(n2) && Inner(n2, c) && c.i < |n2[c.path].access|
    requires d != ROOT && s != ROOT && Up(d) == c && Up(s) == c && d != c && s != c
    requires (d == Left(c) && s == Right(c)) || (d == Right(c) && s == Left(c))
    requires AllOkBut(n2, Above(d)) && V(n2, c) == V(n2, s)
    ensures Shape(Set(n2, c, MinNZ(V(n2, c), V(n2, d))))
    ensures AllOkBut(Set(n2, c, MinNZ(V(n2, c), V(n2, d))), Above(c))
  {
    var v := MinNZ(V(n2, c), V(n2, d));
    hide Left, Right, Shape, Sib;
    SetShape(n2, c, v);
    SetFrame(n2, c, v, Above(d));
    assert Ok(Set(n2, c, v), c);
    hide Width, Ok, Set;
    assert Above(d) == {c} + Above(c);
    if c != ROOT {
      assert Up(c) in Above(c);
    }
  }

  lemma UnderChild(c: Cell, d: Cell, e: Cell)
    requires d != ROOT && Up(d) == c && !AtOrAbove(c, e)
    ensures !AtOrAbove(d, e)
  {
    if d in Above(e) {
      AboveTransitive(d, e);
    }
  }

  ghost predicate Branching(c: Cell, d: Cell, s: Cell) {
    && c.i < Width(c.path) - 1
    && d != ROOT && s != ROOT && Up(d) == c && Up(s) == c && d != s && d != c && s != c
    && ((d == Left(c) && s == Right(c)) || (d == Right(c) && s == Left(c)))
  }

  lemma RejoinShape(n1: Nodes, c: Cell, av: nat, d: Cell, s: Cell, r1: Removal)
    requires Branching(c, d, s) && Shape(n1) && Inner(n1, c) && V(n1, c) == V(n1, s)
    requires RemovalOk(n1, d, av, r1) && Sized(r1.ns)
    ensures Shape(Rejoin(r1, c, d).ns) && AllOkBut(Rejoin(r1, c, d).ns, Above(c))
    ensures c in Above(Cell(r1.leaf, 0)) && c.path != r1.leaf
  {
    var leaf := Cell(r1.leaf, 0);
    NotUnderSibling(c, d, s);
    hide Left, Right, Up, Sib, Ok, Shape, AllOkBut, Width, MinNZ;
    assert V(r1.ns, c) == V(n1, c) && V(r1.ns, s) == V(n1, s);
    assert c.path != r1.leaf;
    LeaveBranch(r1.ns, c, d, s);
    assert c in Above(d);
    if d != leaf {
      AboveTransitive(d, leaf);
    }
  }

  lemma RejoinEntries(ns: Nodes, c: Cell, v: nat, av: nat, d: Cell, r1: Removal)
    requires Inner(ns, c) && c.i < |ns[c.path].access|
    requires RemovalOk(Set(ns, c, v), d, av, r1) && Sized(r1.ns)
    requires c.path != r1.leaf && c in Above(Cell(r1.leaf, 0))
    ensures var r := Rejoin(r1, c, d);
            && IsEntry(ns, r.leaf) && |ns[r.leaf].access| > 0
            && V(ns, Cell(r.leaf, 0)) == av
            && r.ns[r.leaf] == Evict(ns, r.leaf)[r.leaf]
            && (forall q {:trigger r.ns[q]} :: q in ns && q != r.leaf ==> r.ns[q].entry == ns[q].entry)
            && (forall q {:trigger IsEntry(ns, q)} :: IsEntry(ns, q) && q != r.leaf ==> r.ns[q] == ns[q])
  {
    hide Left, Right, Up, Sib, Ok, Shape, AllOkBut, Above, AtOrAbove, Sized, Width, MinNZ;
    var n1 := Set(ns, c, v);
    forall q | IsEntry(ns, q) && q != r1.leaf
      ensures Rejoin(r1, c, d).ns[q] == ns[q]
    {
      assert IsEntry(n1, q);
    }
  }

  lemma RejoinValues(ns: Nodes, c: Cell, v: nat, d: Cell, r1: Removal)
    requires c.path in ns && c.i < |ns[c.path].access| && d != ROOT && Up(d) == c
    requires r1.Removed? && Sized(r1.ns) && c.path in r1.ns && c.i < Width(c.path) - 1
    requires forall e: Cell {:trigger V(r1.ns, e)} :: !AtOrAbove(d, e) ==> V(r1.ns, e) == V(Set(ns, c, v), e)
    ensures forall e: Cell {:trigger V(Rejoin(r1, c, d).ns, e)} ::
              !AtOrAbove(c, e) ==> V(Rejoin(r1, c, d).ns, e) == V(ns, e)
  {
    hide MinNZ, Above;
    forall e: Cell | !AtOrAbove(c, e)
      ensures V(Rejoin(r1, c, d).ns, e) == V(ns, e)
    {
      UnderChild(c, d, e);
      assert V(r1.ns, e) == V(Set(ns, c, v), e);
    }
  }

  lemma ComposeRemoval(ns: Nodes, c: Cell, av: nat, d: Cell, s: Cell, r1: Removal)
    requires Shape(ns) && Inner(ns, c) && c.i < |ns[c.path].access| && Branching(c, d, s)
    requires Shape(Set(ns, c, V(ns, s)))
    requires RemovalOk(Set(ns, c, V(ns, s)), d, av, r1) && Sized(r1.ns)
    ensures RemovalOk(ns, c, av, Rejoin(r1, c, d))
  {
    var n1 := Set(ns, c, V(ns, s));
    hide Left, Right, Up, Sib, Ok, Shape, AllOkBut, Above, Sized, MinNZ, Evict;
    RejoinShape(n1, c, av, d, s, r1);
    RejoinEntries(ns, c, V(ns, s), av, d, r1);
    RejoinValues(ns, c, V(ns, s), d, r1);
  }

  /** While some stamp is not zero the descent cannot panic: it ends at an entry
      that carries the value of the cell it started from. */
  lemma {:induction false} RemoveOk(ns: Nodes, c: Cell, av: nat)
    requires Shape(ns) && Sized(ns) && c.path in ns && c.i < Width(c.path) - 1
    requires IsEntry(ns, c.path) ==> c.i == 0
    requires AllOkBut(ns, Above(c)) && V(ns, c) == av && av != 0
    ensures RemovalOk(ns, c, av, Remove(ns, c, av))
    decreases Beneath(ns, c.path), Width(c.path) - c.i
  {
    if ns[c.path].entry.Some? {
      LeafRemoval(ns, c);
    } else {
      var l, r := Left(c), Right(c);
      ChildMeasure(ns, c, l);
      ChildMeasure(ns, c, r);
      NotAboveSelf(c);
      assert Inner(ns, c);
      assert Ok(ns, c);
      if l.path in ns && av == V(ns, l) {
        EnterBranch(ns, c, l, r);
        RemoveOk(Set(ns, c, V(ns, r)), l, av);
        ComposeRemoval(ns, c, av, l, r, Remove(Set(ns, c, V(ns, r)), l, av));
      } else {
        assert r.path in ns && av == V(ns, r);
        EnterBranch(ns, c, r, l);
        RemoveOk(Set(ns, c, V(ns, l)), r, av);
        ComposeRemoval(ns, c, av, r, l, Remove(Set(ns, c, V(ns, l)), r, av));
      }
    }
  }

  lemma NotAboveSelf(c: Cell)
    ensures c !in Above(c)
  {
    if c in Above(c) {
      AboveIsHigher(c, c);
    }
  }

  // ----- what the tournament means -----

  /** A cell is never larger than a stamp it covers. */
  lemma {:induction false} CoversLe(ns: Nodes, c: Cell, d: Cell)
    requires Shape(ns) && AllOk(ns) && d.path in ns && d.i < Width(d.path) - 1
    requires IsEntry(ns, d.path) ==> d.i == 0
    requires AtOrAbove(c, d) && V(ns, d) != 0
    ensures 0 < V(ns, c) <= V(ns, d)
    decreases |d.path|, d.i
  {
    if c != d {
      NodeIsCell(ns, d);
      UpFamily(d);
      assert Inner(ns, Up(d));
      assert Ok(ns, Up(d));
      CoversLe(ns, c, Up(d));
    }
  }

  lemma {:induction false} RootCovers(d: Cell)
    ensures AtOrAbove(ROOT, d)
    decreases |d.path|, d.i
  {
    if d != ROOT {
      RootCovers(Up(d));
    }
  }

  lemma ShapeSized(ns: Nodes)
    requires Shape(ns)
    ensures Sized(ns)
  {
    forall p | p in ns
      ensures |ns[p].access| == Width(p) - 1
    {
      assert NodeOk(ns, p);
    }
  }

  /** The promise of the access array: every cell holds the least nonzero stamp
      of the entries below it, and zero when there is none. */
  lemma CellIsLeastStamp(ns: Nodes, c: Cell)
    requires Shape(ns) && AllOk(ns) && Inner(ns, c)
    ensures forall p :: IsEntry(ns, p) && AtOrAbove(c, Cell(p, 0)) && V(ns, Cell(p, 0)) != 0
                        ==> 0 < V(ns, c) <= V(ns, Cell(p, 0))
    ensures V(ns, c) != 0 ==>
              exists p :: IsEntry(ns, p) && AtOrAbove(c, Cell(p, 0)) && V(ns, Cell(p, 0)) == V(ns, c)
  {
    hide Left, Right, Up, Ok;
    forall p | IsEntry(ns, p) && AtOrAbove(c, Cell(p, 0)) && V(ns, Cell(p, 0)) != 0
      ensures 0 < V(ns, c) <= V(ns, Cell(p, 0))
    {
      CoversLe(ns, c, Cell(p, 0));
    }
    if V(ns, c) != 0 {
      ShapeSized(ns);
      assert AllOkBut(ns, Above(c));
      RemoveOk(ns, c, V(ns, c));
      var p := Remove(ns, c, V(ns, c)).leaf;
      assert IsEntry(ns, p) && AtOrAbove(c, Cell(p, 0)) && V(ns, Cell(p, 0)) == V(ns, c);
    }
  }

  // ----- the tournament without any stamp -----

  ghost predicate NoStamp(ns: Nodes) {
    forall d: Cell {:trigger V(ns, d)} :: V(ns, d) == 0
  }

  ghost predicate UnstampedArePending(ns: Nodes) {
    forall p {:trigger IsEntry(ns, p)} ::
      IsEntry(ns, p) && V(ns, Cell(p, 0)) == 0 ==> ns[p].entry.value.sdata.None?
  }

  /** With no stamp left removeOldest evicts nothing: it either panics or walks
      to a pending request and leaves the tree as it was. */
  lemma {:induction false} RemoveWithoutStamp(ns: Nodes, c: Cell)
    requires Sized(ns) && c.path in ns && c.i < Width(c.path) - 1
    requires NoStamp(ns) && UnstampedArePending(ns)
    ensures Remove(ns, c, 0).Removed? ==> Remove(ns, c, 0).ns == ns && IsEntry(ns, Remove(ns, c, 0).leaf)
    decreases Beneath(ns, c.path), Width(c.path) - c.i
  {
    if ns[c.path].entry.Some? {
      var n := ns[c.path];
      assert IsEntry(ns, c.path) && V(ns, Cell(c.path, 0)) == 0;
      assert n.access[0 := 0] == n.access;
      assert Evict(ns, c.path) == ns;
    } else {
      var l, r := Left(c), Right(c);
      ChildMeasure(ns, c, l);
      ChildMeasure(ns, c, r);
      SetSame(ns, c);
      if l.path in ns {
        RemoveWithoutStamp(ns, l);
      } else if r.path in ns {
        RemoveWithoutStamp(ns, r);
      }
    }
  }

  lemma RootZeroMeansNoStamp(ns: Nodes)
    requires Shape(ns) && AllOk(ns) && V(ns, ROOT) == 0
    ensures NoStamp(ns)
  {
    forall d: Cell
      ensures V(ns, d) == 0
    {
      RootZeroAt(ns, d);
    }
  }

  lemma RootZeroAt(ns: Nodes, d: Cell)
    requires Shape(ns) && AllOk(ns) && V(ns, ROOT) == 0
    ensures V(ns, d) == 0
  {
    if d.path in ns {
      assert NodeOk(ns, d.path);
      if V(ns, d) != 0 {
        RootCovers(d);
        CoversLe(ns, ROOT, d);
      }
    }
  }
}
