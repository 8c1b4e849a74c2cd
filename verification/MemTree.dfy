/** The hash-prefix tree of the memory cache and its tournament of access
    stamps. Nodes are addressed by the digits that lead to them from the root;
    the tree never unlinks a node, so the address of a node never changes. */
module MemTree {
  import opened Bytes
  import opened Keys

  /** A cache entry; sdata is None for a pending retrieval request. */
  datatype Chunk = Chunk(key: Key, sdata: Option<seq<Byte>>, size: int, req: Option<nat>, c: nat)

  type Path = seq<nat>

  /** access is a binary tournament over the subtrees of the node. */
  datatype Node = Node(entry: Option<Chunk>, access: seq<nat>)

  type Nodes = map<Path, Node>

  /** Position i of the tournament of one node. */
  datatype Cell = Cell(path: Path, i: nat)

  const ROOT: Cell := Cell([], 0)

  function Width(p: Path): (w: nat) {
    if p == [] then ROOT_WIDTH else NODE_WIDTH
  }

  function Parent(p: Path): Path
    requires p != []
  {
    p[..|p| - 1]
  }

  function Last(p: Path): nat
    requires p != []
  {
    p[|p| - 1]
  }

  /** x ^ 1 */
  function Flip(x: nat): nat {
    if x % 2 == 0 then x + 1 else x - 1
  }

  function MinNZ(a: nat, b: nat): nat {
    if a == 0 then b else if b == 0 then a else if a < b then a else b
  }

  // ----- cells and their family -----

  predicate IsCell(c: Cell) {
    && c.i < Width(c.path) - 1
    && (c.path != [] ==> Last(c.path) < Width(Parent(c.path)))
  }

  function Left(c: Cell): Cell
    requires c.i < Width(c.path) - 1
  {
    if c.i < Width(c.path) / 2 - 1 then Cell(c.path, 2 * c.i + 1)
    else Cell(c.path + [2 * c.i + 2 - Width(c.path)], 0)
  }

  function Right(c: Cell): Cell
    requires c.i < Width(c.path) - 1
  {
    if c.i < Width(c.path) / 2 - 1 then Cell(c.path, 2 * c.i + 2)
    else Cell(c.path + [2 * c.i + 3 - Width(c.path)], 0)
  }

  function Up(c: Cell): Cell
    requires c != ROOT
  {
    if c.i > 0 then Cell(c.path, (c.i - 1) / 2)
    else Cell(Parent(c.path), (Width(Parent(c.path)) + Last(c.path) - 2) / 2)
  }

  function Sib(c: Cell): Cell
    requires c != ROOT
  {
    if c.i > 0 then Cell(c.path, Flip(c.i - 1) + 1)
    else Cell(Parent(c.path) + [Flip(Last(c.path))], 0)
  }

  lemma ChildPath(p: Path, k: nat)
    ensures p + [k] != [] && Parent(p + [k]) == p && Last(p + [k]) == k
  {
  }

  lemma Widths(p: Path)
    ensures Width(p) >= 4 && Width(p) % 2 == 0
  {
  }

  /** The position arithmetic of a tournament of width w. */
  lemma Positions(w: nat, i: nat)
    requires w >= 4 && w % 2 == 0 && i < w - 1
    ensures Flip(2 * i) == 2 * i + 1 && Flip(2 * i + 1) == 2 * i && (2 * i) / 2 == i && (2 * i + 1) / 2 == i
    ensures i < w / 2 - 1 ==> 2 * i + 2 < w - 1
    ensures i >= w / 2 - 1 ==>
              var k := 2 * i + 2 - w; 0 <= k < w - 1 && (w + k - 2) / 2 == i && (w + k + 1 - 2) / 2 == i
                                      && Flip(k) == k + 1 && Flip(k + 1) == k
  {
  }

  lemma LeftUp(c: Cell)
    requires IsCell(c)
    ensures IsCell(Left(c)) && Left(c) != ROOT && Up(Left(c)) == c && Sib(Left(c)) == Right(c)
  {
    var w := Width(c.path);
    Widths(c.path);
    Positions(w, c.i);
    if c.i >= w / 2 - 1 {
      ChildPath(c.path, 2 * c.i + 2 - w);
      Widths(c.path + [2 * c.i + 2 - w]);
    }
    hide Parent, Last, Width, Flip;
  }

  lemma RightUp(c: Cell)
    requires IsCell(c)
    ensures IsCell(Right(c)) && Right(c) != ROOT && Up(Right(c)) == c && Sib(Right(c)) == Left(c)
  {
    var w := Width(c.path);
    Widths(c.path);
    Positions(w, c.i);
    if c.i >= w / 2 - 1 {
      ChildPath(c.path, 2 * c.i + 3 - w);
      Widths(c.path + [2 * c.i + 3 - w]);
    }
    hide Parent, Last, Width, Flip;
  }

  lemma PositionAbove(w: nat, i: nat)
    requires w >= 4 && w % 2 == 0 && 0 < i < w - 1
    ensures var u := (i - 1) / 2;
            && u < w / 2 - 1
            && ((2 * u + 1 == i && Flip(i - 1) + 1 == 2 * u + 2) || (2 * u + 2 == i && Flip(i - 1) + 1 == 2 * u + 1))
  {
  }

  lemma BottomPosition(w: nat, k: nat)
    requires w >= 4 && w % 2 == 0 && k < w
    ensures var u := (w + k - 2) / 2;
            && w / 2 - 1 <= u < w - 1
            && ((2 * u + 2 - w == k && Flip(k) == 2 * u + 3 - w) || (2 * u + 3 - w == k && Flip(k) == 2 * u + 2 - w))
            && Flip(k) != k
  {
  }

  /** A cell and its sibling are the two inputs of the cell above. */
  lemma UpFamily(c: Cell)
    requires IsCell(c) && c != ROOT
    ensures Up(c).i < Width(Up(c).path) - 1
    ensures (Left(Up(c)) == c && Right(Up(c)) == Sib(c)) || (Left(Up(c)) == Sib(c) && Right(Up(c)) == c)
    ensures Sib(c) != c
  {
    var p := c.path;
    Widths(p);
    if c.i > 0 {
      PositionAbove(Width(p), c.i);
      hide Width, Flip, Parent, Last;
    } else {
      assert p == Parent(p) + [Last(p)];
      Widths(Parent(p));
      BottomPosition(Width(Parent(p)), Last(p));
      assert (Parent(p) + [Flip(Last(p))])[|p| - 1] == Flip(Last(p));
      hide Width, Flip, Parent, Last;
    }
  }

  // ----- reading and writing stamps -----

  function V(ns: Nodes, c: Cell): nat {
    if c.path in ns && c.i < |ns[c.path].access| then ns[c.path].access[c.i] else 0
  }

  function Set(ns: Nodes, c: Cell, v: nat): Nodes
    requires c.path in ns && c.i < |ns[c.path].access|
  {
    ns[c.path := ns[c.path].(access := ns[c.path].access[c.i := v])]
  }

  predicate IsEntry(ns: Nodes, p: Path) {
    p in ns && ns[p].entry.Some?
  }

  predicate OnPath(k: Key, p: Path) {
    forall j: nat :: j < |p| ==> p[j] == Digit(k, j)
  }

  predicate EntryOk(p: Path, n: Node) {
    n.entry.Some? ==>
      && |n.entry.value.key| == KEY_SIZE
      && OnPath(n.entry.value.key, p)
      && forall i: nat :: 0 < i < |n.access| ==> n.access[i] == 0
  }

  predicate NodeOk(ns: Nodes, p: Path)
    requires p in ns
  {
    && |ns[p].access| == Width(p) - 1
    && EntryOk(p, ns[p])
    && (p != [] ==>
        && Last(p) < Width(Parent(p))
        && Parent(p) in ns
        && ns[Parent(p)].entry.None?)
  }

  /** Every node but the root hangs below a node without an entry. */
  ghost predicate Shape(ns: Nodes) {
    && [] in ns && ns[[]].entry.None?
    && forall p {:trigger NodeOk(ns, p)} :: p in ns ==> NodeOk(ns, p)
  }

  predicate Inner(ns: Nodes, c: Cell) {
    c.path in ns && ns[c.path].entry.None? && c.i < Width(c.path) - 1
  }

  /** The tournament equation of one cell. */
  predicate Ok(ns: Nodes, c: Cell)
    requires c.i < Width(c.path) - 1
  {
    V(ns, c) == MinNZ(V(ns, Left(c)), V(ns, Right(c)))
  }

  ghost predicate AllOkBut(ns: Nodes, exempt: set<Cell>) {
    forall c: Cell {:trigger Inner(ns, c)} :: Inner(ns, c) && c !in exempt ==> Ok(ns, c)
  }

  ghost predicate AllOk(ns: Nodes) {
    AllOkBut(ns, {})
  }

  lemma NodeIsCell(ns: Nodes, c: Cell)
    requires Shape(ns) && c.path in ns && c.i < Width(c.path) - 1
    ensures IsCell(c) && c.i < |ns[c.path].access|
    ensures c != ROOT ==> Up(c).path in ns && IsCell(Up(c)) && (c.i == 0 ==> Inner(ns, Up(c)))
    ensures Inner(ns, c) && c != ROOT ==> Inner(ns, Up(c))
  {
    assert NodeOk(ns, c.path);
    if c != ROOT {
      UpFamily(c);
      assert NodeOk(ns, Up(c).path);
    }
  }

  /** Writing one cell can only disturb the equations of that cell and of the
      cell above it. */
  lemma SetFrame(ns: Nodes, c: Cell, v: nat, exempt: set<Cell>)
    requires Shape(ns) && c.path in ns && c.i < Width(c.path) - 1
    requires c.i < |ns[c.path].access|
    requires AllOkBut(ns, exempt)
    ensures c == ROOT ==> AllOkBut(Set(ns, c, v), exempt + {c})
    ensures c != ROOT ==> AllOkBut(Set(ns, c, v), exempt + {c, Up(c)})
  {
    var ns' := Set(ns, c, v);
    forall d: Cell | Inner(ns', d) && d != c && d !in exempt && (c == ROOT || d != Up(c))
      ensures Ok(ns', d)
    {
      assert Inner(ns, d);
      NodeIsCell(ns, d);
      hide Shape;
      LeftUp(d);
      RightUp(d);
      hide Left, Right, Up, Sib, IsCell, Set, V;
      SetOther(ns, c, v, d);
      SetOther(ns, c, v, Left(d));
      SetOther(ns, c, v, Right(d));
    }
  }

  lemma SetOther(ns: Nodes, c: Cell, v: nat, d: Cell)
    requires c.path in ns && c.i < |ns[c.path].access| && d != c
    ensures V(Set(ns, c, v), d) == V(ns, d)
  {
  }

  lemma SetShape(ns: Nodes, c: Cell, v: nat)
    requires Shape(ns) && c.path in ns && c.i < |ns[c.path].access|
    requires IsEntry(ns, c.path) ==> c.i == 0
    ensures Shape(Set(ns, c, v))
  {
    var ns' := Set(ns, c, v);
    forall p | p in ns'
      ensures NodeOk(ns', p)
    {
      assert NodeOk(ns, p);
    }
  }

  /** Nothing but stamps differs, and only at cells of the given node or of
      nodes without an entry. */
  ghost predicate OnlyStamps(ns: Nodes, ns': Nodes, p: Path) {
    && ns'.Keys == ns.Keys
    && (forall q {:trigger ns'[q]} :: q in ns ==> ns'[q].entry == ns[q].entry && |ns'[q].access| == |ns[q].access|)
    && (forall q {:trigger IsEntry(ns, q)} :: IsEntry(ns, q) && q != p ==> ns'[q] == ns[q])
  }
}
