/** The map that the cache tree stands for, and what splitting a node, adding
    a leaf, restamping and evicting do to it. */
module MemModel {
  import opened Bytes
  import opened Keys
  import opened MemTree
  import opened MemUpdate
  import opened MemEvict

  /** A resident entry with its access stamp. */
  datatype Slot = Slot(chunk: Chunk, stamp: nat)

  type Cache = map<Key, Slot>

  function KeyAt(ns: Nodes, p: Path): Key
    requires IsEntry(ns, p)
  {
    ns[p].entry.value.key
  }

  function SlotAt(ns: Nodes, p: Path): Slot
    requires IsEntry(ns, p)
  {
    Slot(ns[p].entry.value, V(ns, Cell(p, 0)))
  }

  ghost function StoredKeys(ns: Nodes): set<Key> {
    set p | p in ns && ns[p].entry.Some? :: ns[p].entry.value.key
  }

  ghost function Home(ns: Nodes, k: Key): Path
    requires k in StoredKeys(ns)
  {
    var p :| p in ns && ns[p].entry.Some? && ns[p].entry.value.key == k;
    p
  }

  ghost function Model(ns: Nodes): Cache {
    map k | k in StoredKeys(ns) :: SlotAt(ns, Home(ns, k))
  }

  lemma {:induction false} PrefixIsInner(ns: Nodes, q: Path, n: nat)
    requires Shape(ns) && q in ns && n < |q|
    ensures q[..n] in ns && ns[q[..n]].entry.None?
    decreases |q|
  {
    ParentIsInner(ns, q);
    if n < |q| - 1 {
      PrefixIsInner(ns, Parent(q), n);
      assert Parent(q)[..n] == q[..n];
    } else {
      assert q[..n] == Parent(q);
    }
  }

  /** A key is stored at most once. */
  lemma OneHome(ns: Nodes, p: Path, q: Path)
    requires Shape(ns) && IsEntry(ns, p) && IsEntry(ns, q) && KeyAt(ns, p) == KeyAt(ns, q)
    ensures p == q
  {
    assert NodeOk(ns, p) && NodeOk(ns, q);
    SamePrefix(KeyAt(ns, p), p, q);
    if |p| < |q| {
      PrefixIsInner(ns, q, |p|);
    } else if |q| < |p| {
      PrefixIsInner(ns, p, |q|);
    }
  }

  lemma SamePrefix(k: Key, p: Path, q: Path)
    requires OnPath(k, p) && OnPath(k, q)
    ensures |p| <= |q| ==> q[..|p|] == p
    ensures |q| <= |p| ==> p[..|q|] == q
  {
    hide Digit;
  }

  lemma ModelAt(ns: Nodes, p: Path)
    requires Shape(ns) && IsEntry(ns, p)
    ensures KeyAt(ns, p) in Model(ns) && Model(ns)[KeyAt(ns, p)] == SlotAt(ns, p)
  {
    var k := KeyAt(ns, p);
    assert k in StoredKeys(ns);
    OneHome(ns, p, Home(ns, k));
  }

  lemma ModelHome(ns: Nodes, k: Key)
    requires Shape(ns) && k in Model(ns)
    ensures k in StoredKeys(ns) && IsEntry(ns, Home(ns, k)) && KeyAt(ns, Home(ns, k)) == k
    ensures Model(ns)[k] == SlotAt(ns, Home(ns, k))
  {
  }

  /** A map is the model when it agrees with every entry and has no other key. */
  lemma ModelIs(ns: Nodes, m: Cache)
    requires Shape(ns)
    requires forall p {:trigger IsEntry(ns, p)} :: IsEntry(ns, p) ==> KeyAt(ns, p) in m && m[KeyAt(ns, p)] == SlotAt(ns, p)
    requires forall k {:trigger k in m} :: k in m ==> exists p :: IsEntry(ns, p) && KeyAt(ns, p) == k
    ensures Model(ns) == m
  {
    forall k | k in Model(ns)
      ensures k in m && m[k] == Model(ns)[k]
    {
      ModelHome(ns, k);
    }
    forall k | k in m
      ensures k in Model(ns)
    {
      var p :| IsEntry(ns, p) && KeyAt(ns, p) == k;
      ModelAt(ns, p);
    }
  }

  // ----- restamping and replacing one entry -----

  /** One entry node is rewritten; every other entry node stays as it is. */
  lemma RewriteModel(ns: Nodes, ns': Nodes, p: Path)
    requires Shape(ns) && Shape(ns') && ns'.Keys == ns.Keys
    requires IsEntry(ns, p) && IsEntry(ns', p) && KeyAt(ns', p) == KeyAt(ns, p)
    requires forall q {:trigger IsEntry(ns, q)} :: IsEntry(ns, q) && q != p ==> ns'[q] == ns[q]
    requires forall q {:trigger ns'[q]} :: q in ns && q != p ==> ns'[q].entry == ns[q].entry
    ensures Model(ns') == Model(ns)[KeyAt(ns, p) := SlotAt(ns', p)]
  {
    var k := KeyAt(ns, p);
    var m := Model(ns)[k := SlotAt(ns', p)];
    forall q | IsEntry(ns', q)
      ensures KeyAt(ns', q) in m && m[KeyAt(ns', q)] == SlotAt(ns', q)
    {
      if q != p {
        assert ns'[q].entry == ns[q].entry;
        assert IsEntry(ns, q);
        ModelAt(ns, q);
        if KeyAt(ns, q) == k {
          OneHome(ns, p, q);
        }
      }
    }
    forall j | j in m
      ensures exists q :: IsEntry(ns', q) && KeyAt(ns', q) == j
    {
      if j == k {
        assert IsEntry(ns', p) && KeyAt(ns', p) == j;
      } else {
        ModelHome(ns, j);
        var q := Home(ns, j);
        assert IsEntry(ns, q) && q != p;
        assert IsEntry(ns', q) && KeyAt(ns', q) == j;
      }
    }
    ModelIs(ns', m);
  }

  /** One entry leaves the tree. */
  lemma DropModel(ns: Nodes, ns': Nodes, p: Path)
    requires Shape(ns) && Shape(ns') && ns'.Keys == ns.Keys
    requires IsEntry(ns, p) && !IsEntry(ns', p)
    requires forall q {:trigger IsEntry(ns, q)} :: IsEntry(ns, q) && q != p ==> ns'[q] == ns[q]
    requires forall q {:trigger ns'[q]} :: q in ns && q != p ==> ns'[q].entry == ns[q].entry
    ensures Model(ns') == Model(ns) - {KeyAt(ns, p)}
  {
    var k := KeyAt(ns, p);
    var m := Model(ns) - {k};
    forall q | IsEntry(ns', q)
      ensures KeyAt(ns', q) in m && m[KeyAt(ns', q)] == SlotAt(ns', q)
    {
      assert ns'[q].entry == ns[q].entry;
      assert IsEntry(ns, q);
      ModelAt(ns, q);
      if KeyAt(ns, q) == k {
        OneHome(ns, p, q);
      }
    }
    forall j | j in m
      ensures exists q :: IsEntry(ns', q) && KeyAt(ns', q) == j
    {
      ModelHome(ns, j);
      var q := Home(ns, j);
      assert IsEntry(ns, q) && q != p;
      assert IsEntry(ns', q) && KeyAt(ns', q) == j;
    }
    ModelIs(ns', m);
  }

  // ----- eviction -----

  predicate IsOldest(m: Cache, k: Key) {
    && k in m && m[k].stamp != 0
    && forall j :: j in m && m[j].stamp != 0 ==> m[k].stamp <= m[j].stamp
  }

  function Evicted(m: Cache, k: Key): Cache
    requires k in m
  {
    if m[k].chunk.sdata.Some? then m - {k} else m[k := m[k].(stamp := 0)]
  }

  predicate SomeStamp(m: Cache) {
    exists k :: k in m && m[k].stamp != 0
  }

  /** removeOldest takes out the least recently used entry, whatever the shape
      of the tree. */
  lemma RemoveEvictsOldest(ns: Nodes)
    requires Shape(ns) && Sized(ns) && AllOk(ns) && V(ns, ROOT) != 0
    ensures var r := Remove(ns, ROOT, V(ns, ROOT));
            && r.Removed? && IsEntry(ns, r.leaf)
            && IsOldest(Model(ns), KeyAt(ns, r.leaf))
            && Shape(r.ns) && AllOk(r.ns)
            && Model(r.ns) == Evicted(Model(ns), KeyAt(ns, r.leaf))
  {
    RemoveOk(ns, ROOT, V(ns, ROOT));
    var r := Remove(ns, ROOT, V(ns, ROOT));
    var k := KeyAt(ns, r.leaf);
    hide Left, Right, Up, Ok, Shape, Remove, AllOkBut;
    ModelAt(ns, r.leaf);
    forall j | j in Model(ns) && Model(ns)[j].stamp != 0
      ensures Model(ns)[k].stamp <= Model(ns)[j].stamp
    {
      ModelHome(ns, j);
      RootLeast(ns, Home(ns, j));
    }
    if ns[r.leaf].entry.value.sdata.Some? {
      DropModel(ns, r.ns, r.leaf);
    } else {
      RewriteModel(ns, r.ns, r.leaf);
    }
  }

  lemma RootLeast(ns: Nodes, p: Path)
    requires Shape(ns) && AllOk(ns) && IsEntry(ns, p) && V(ns, Cell(p, 0)) != 0
    ensures 0 < V(ns, ROOT) <= V(ns, Cell(p, 0))
  {
    RootCovers(Cell(p, 0));
    CoversLe(ns, ROOT, Cell(p, 0));
  }

  lemma StampAtRoot(ns: Nodes)
    requires Shape(ns) && AllOk(ns)
    ensures V(ns, ROOT) != 0 <==> SomeStamp(Model(ns))
  {
    if V(ns, ROOT) != 0 {
      ShapeSized(ns);
      RemoveEvictsOldest(ns);
    }
    if SomeStamp(Model(ns)) {
      var k :| k in Model(ns) && Model(ns)[k].stamp != 0;
      ModelHome(ns, k);
      RootLeast(ns, Home(ns, k));
    }
  }

  // ----- making room for a new key -----

  const ZEROS: seq<nat> := [0, 0, 0]

  /** newMemTree with an entry, at an address that is free. */
  function AddLeaf(ns: Nodes, q: Path, e: Chunk): Nodes {
    ns[q := Node(Some(e), ZEROS)]
  }

  predicate FreeFor(ns: Nodes, q: Path, k: Key) {
    && q != [] && q !in ns && Parent(q) in ns && ns[Parent(q)].entry.None?
    && |k| == KEY_SIZE && OnPath(k, q)
  }

  lemma FreeLastDigit(ns: Nodes, q: Path, k: Key)
    requires FreeFor(ns, q, k)
    ensures Last(q) < Width(Parent(q))
  {
    assert Last(q) == Digit(k, |q| - 1);
  }

  lemma AddLeafOk(ns: Nodes, q: Path, e: Chunk)
    requires Shape(ns) && AllOk(ns) && FreeFor(ns, q, e.key)
    ensures Shape(AddLeaf(ns, q, e)) && AllOk(AddLeaf(ns, q, e))
    ensures forall d: Cell {:trigger V(AddLeaf(ns, q, e), d)} :: V(AddLeaf(ns, q, e), d) == V(ns, d)
  {
    var ns' := AddLeaf(ns, q, e);
    FreeLastDigit(ns, q, e.key);
    AddLeafValues(ns, q, e);
    hide Digit, Left, Right, V, NodeOk, Width, OnPath;
    forall p | p in ns'
      ensures NodeOk(ns', p)
    {
      AddLeafNode(ns, q, e, p);
    }
    forall c: Cell | Inner(ns', c)
      ensures Ok(ns', c)
    {
      assert Inner(ns, c);
    }
  }

  lemma AddLeafValues(ns: Nodes, q: Path, e: Chunk)
    requires q !in ns
    ensures forall d: Cell {:trigger V(AddLeaf(ns, q, e), d)} :: V(AddLeaf(ns, q, e), d) == V(ns, d)
  {
  }

  lemma AddLeafNode(ns: Nodes, q: Path, e: Chunk, p: Path)
    requires Shape(ns) && FreeFor(ns, q, e.key) && Last(q) < Width(Parent(q)) && p in AddLeaf(ns, q, e)
    ensures NodeOk(AddLeaf(ns, q, e), p)
  {
    hide Digit, OnPath;
    if p != q {
      assert NodeOk(ns, p);
      if p != [] {
        ParentIsInner(ns, p);
      }
    }
  }

  lemma AddLeafModel(ns: Nodes, q: Path, e: Chunk)
    requires Shape(ns) && Shape(AddLeaf(ns, q, e)) && q !in ns
    ensures e.key !in Model(ns)
    ensures Model(AddLeaf(ns, q, e)) == Model(ns)[e.key := Slot(e, 0)]
  {
    var ns' := AddLeaf(ns, q, e);
    var m := Model(ns)[e.key := Slot(e, 0)];
    hide Shape, Digit;
    assert IsEntry(ns', q) && KeyAt(ns', q) == e.key;
    if e.key in Model(ns) {
      ModelHome(ns, e.key);
      var p := Home(ns, e.key);
      assert IsEntry(ns', p);
      OneHome(ns', p, q);
    }
    forall p | IsEntry(ns', p)
      ensures KeyAt(ns', p) in m && m[KeyAt(ns', p)] == SlotAt(ns', p)
    {
      if p != q {
        assert IsEntry(ns, p);
        ModelAt(ns, p);
      }
    }
    forall j | j in m
      ensures exists p :: IsEntry(ns', p) && KeyAt(ns', p) == j
    {
      if j != e.key {
        ModelHome(ns, j);
        assert IsEntry(ns', Home(ns, j)) && KeyAt(ns', Home(ns, j)) == j;
      }
    }
    ModelIs(ns', m);
  }

  /** The entry of a node hangs one digit further down; the two nodes carry the
      given stamps. */
  function Moved(ns: Nodes, q: Path, above: seq<nat>, below: seq<nat>): Nodes
    requires IsEntry(ns, q)
  {
    var e := ns[q].entry;
    ns[q := Node(None, above)][q + [Digit(e.value.key, |q|)] := Node(e, below)]
  }

  /** One round of the split loop: the entry of a node moves one digit down and
      takes its stamp along. */
  function SplitNode(ns: Nodes, q: Path): Nodes
    requires IsEntry(ns, q) && |ns[q].access| > 0
  {
    var x := ns[q].access[0];
    var l := Digit(KeyAt(ns, q), |q|);
    Moved(ns, q, [x, if l < 2 then x else 0, if l < 2 then 0 else x], [x, 0, 0])
  }

  lemma OnPathExtend(k: Key, q: Path)
    requires OnPath(k, q)
    ensures OnPath(k, q + [Digit(k, |q|)])
  {
    hide Digit;
  }

  lemma MovedShape(ns: Nodes, q: Path, above: seq<nat>, below: seq<nat>)
    requires Shape(ns) && IsEntry(ns, q) && q != []
    requires |above| == 3 && |below| == 3 && below[1] == below[2] == 0
    ensures Shape(Moved(ns, q, above, below))
    ensures q + [Digit(KeyAt(ns, q), |q|)] !in ns
  {
    assert NodeOk(ns, q);
    var k := KeyAt(ns, q);
    var l := Digit(k, |q|);
    var ns', st := Moved(ns, q, above, below), q + [l];
    EntryIsLeaf(ns, q, l);
    OnPathExtend(k, q);
    hide Digit, OnPath;
    assert Parent(st) == q && Last(st) == l;
    assert NodeOk(ns', st);
    forall p | p in ns' && p != st
      ensures NodeOk(ns', p)
    {
      MovedNode(ns, q, above, below, p);
    }
  }

  lemma MovedNode(ns: Nodes, q: Path, above: seq<nat>, below: seq<nat>, p: Path)
    requires Shape(ns) && IsEntry(ns, q) && q != [] && |above| == 3
    requires p in ns && p != q + [Digit(KeyAt(ns, q), |q|)]
    ensures NodeOk(Moved(ns, q, above, below), p)
  {
    EntryIsLeaf(ns, q, Digit(KeyAt(ns, q), |q|));
    hide Digit, OnPath;
    assert NodeOk(ns, p);
    if p != [] {
      ParentIsInner(ns, p);
    }
  }

  lemma SplitOk(ns: Nodes, q: Path)
    requires Shape(ns) && AllOk(ns) && IsEntry(ns, q) && q != []
    requires |ns[q].access| > 0
    ensures Shape(SplitNode(ns, q)) && AllOk(SplitNode(ns, q))
  {
    assert NodeOk(ns, q);
    var ns' := SplitNode(ns, q);
    MovedShape(ns, q, ns'[q].access, [ns[q].access[0], 0, 0]);
    hide Digit, Left, Right, Ok, Width, Shape;
    forall c: Cell | Inner(ns', c)
      ensures Ok(ns', c)
    {
      if c.path == q {
        assert Width(q) == NODE_WIDTH;
        SplitCellOk(ns, q, c.i);
      } else {
        assert Inner(ns, c);
        SplitOtherCellOk(ns, q, c);
      }
    }
  }

  lemma SplitOtherCellOk(ns: Nodes, q: Path, c: Cell)
    requires Shape(ns) && IsEntry(ns, q) && q != [] && |ns[q].access| > 0
    requires Inner(ns, c) && Ok(ns, c) && c.path != q
    ensures Ok(SplitNode(ns, q), c)
  {
    var st := q + [Digit(KeyAt(ns, q), |q|)];
    EntryIsLeaf(ns, q, Digit(KeyAt(ns, q), |q|));
    hide Digit;
    NodeIsCell(ns, c);
    LeftUp(c);
    RightUp(c);
    hide Left, Right, Sib, Width, Shape;
    assert Parent(st) == q;
  }

  lemma SplitCellOk(ns: Nodes, q: Path, i: nat)
    requires Shape(ns) && IsEntry(ns, q) && q != [] && |ns[q].access| > 0 && i < 3
    ensures Ok(SplitNode(ns, q), Cell(q, i))
  {
    var l := Digit(KeyAt(ns, q), |q|);
    hide Digit;
    if i > 0 {
      EntryIsLeaf(ns, q, 2 * i - 2);
      EntryIsLeaf(ns, q, 2 * i - 1);
      assert Left(Cell(q, i)) == Cell(q + [2 * i - 2], 0);
      assert Right(Cell(q, i)) == Cell(q + [2 * i - 1], 0);
      assert (q + [l])[|q|] == l && (q + [2 * i - 2])[|q|] == 2 * i - 2 && (q + [2 * i - 1])[|q|] == 2 * i - 1;
    }
  }

  lemma SplitModel(ns: Nodes, q: Path)
    requires Shape(ns) && IsEntry(ns, q) && q != []
    requires |ns[q].access| > 0 && Shape(SplitNode(ns, q))
    ensures Model(SplitNode(ns, q)) == Model(ns)
  {
    var ns' := SplitNode(ns, q);
    var m := Model(ns);
    var l := Digit(KeyAt(ns, q), |q|);
    var st := q + [l];
    EntryIsLeaf(ns, q, l);
    hide Shape, Digit;
    assert IsEntry(ns', st) && KeyAt(ns', st) == KeyAt(ns, q) && SlotAt(ns', st) == SlotAt(ns, q);
    ModelAt(ns, q);
    forall p | IsEntry(ns', p)
      ensures KeyAt(ns', p) in m && m[KeyAt(ns', p)] == SlotAt(ns', p)
    {
      if p != st {
        assert p != q && IsEntry(ns, p);
        ModelAt(ns, p);
      }
    }
    forall j | j in m
      ensures exists p :: IsEntry(ns', p) && KeyAt(ns', p) == j
    {
      ModelHome(ns, j);
      var p := Home(ns, j);
      if p != q {
        assert IsEntry(ns', p) && KeyAt(ns', p) == j;
      }
    }
    ModelIs(ns', m);
  }

  /** Climbing from a fresh leaf stops two cells up, at the stamp that the
      split node already has. */
  lemma ClimbTwo(ns: Nodes, c0: Cell, c1: Cell, c2: Cell, x: nat)
    requires ValidClimb(ns, c0) && c0 != ROOT && c1 == Up(c0) && c1 != ROOT && c2 == Up(c1)
    requires Sib(c0) != c0 && Sib(c1) != c0 && Sib(c1) != c1 && c1 != c0 && c2 != c0 && c2 != c1
    requires V(ns, c0) == V(ns, Sib(c0)) == V(ns, c1) == V(ns, Sib(c1)) == 0 && V(ns, c2) == x != 0
    ensures c1.path in ns && c1.i < |ns[c1.path].access|
    ensures Climb(ns, c0, 0, x) == Set(Set(ns, c0, x), c1, x)
  {
    hide Up, Sib;
    var n1 := Set(ns, c0, x);
    SetKeepsClimb(ns, c1, c0, x);
    SetKeepsClimb(n1, c2, c1, x);
    var n2 := Set(n1, c1, x);
    assert Climb(ns, c0, 0, x) == Climb(n1, c1, 0, x);
    assert Climb(n1, c1, 0, x) == Climb(n2, c2, 0, x);
  }

  lemma SplitClimb(ns: Nodes, q: Path)
    requires Shape(ns) && IsEntry(ns, q) && q != [] && |ns[q].access| > 0
    ensures var n1, st := Moved(ns, q, ns[q].access, ZEROS), q + [Digit(KeyAt(ns, q), |q|)];
            && Shape(n1) && V(n1, Cell(st, 0)) == 0 && ValidClimb(n1, Cell(st, 0))
            && Climb(n1, Cell(st, 0), 0, ns[q].access[0]) == SplitNode(ns, q)
  {
    assert NodeOk(ns, q);
    var x := ns[q].access[0];
    var l := Digit(KeyAt(ns, q), |q|);
    var n1, st := Moved(ns, q, ns[q].access, ZEROS), q + [l];
    MovedShape(ns, q, ns[q].access, ZEROS);
    ShapeClimb(n1, Cell(st, 0));
    assert ns[q].access == [x, 0, 0];
    if x == 0 {
      ClimbZero(n1, Cell(st, 0));
    } else {
      SplitClimbStamped(ns, q, l);
    }
  }

  lemma SplitClimbStamped(ns: Nodes, q: Path, l: nat)
    requires Shape(ns) && IsEntry(ns, q) && q != [] && l == Digit(KeyAt(ns, q), |q|)
    requires |ns[q].access| == 3 && ns[q].access[1] == ns[q].access[2] == 0 != ns[q].access[0]
    requires ValidClimb(Moved(ns, q, ns[q].access, ZEROS), Cell(q + [l], 0))
    ensures Climb(Moved(ns, q, ns[q].access, ZEROS), Cell(q + [l], 0), 0, ns[q].access[0]) == SplitNode(ns, q)
  {
    var x := ns[q].access[0];
    var n1, st := Moved(ns, q, ns[q].access, ZEROS), q + [l];
    EntryIsLeaf(ns, q, Flip(l));
    hide Digit, Climb, ValidClimb, Shape;
    assert Parent(st) == q && Last(st) == l;
    assert st[|q|] != (q + [Flip(l)])[|q|];
    var c1 := Cell(q, if l < 2 then 1 else 2);
    ClimbTwo(n1, Cell(st, 0), c1, Cell(q, 0), x);
    var n3 := Set(Set(n1, Cell(st, 0), x), c1, x);
    assert n3[st] == Node(ns[q].entry, [x, 0, 0]);
    assert n3[q].access == SplitNode(ns, q)[q].access;
    assert n3 == SplitNode(ns, q);
  }

  // ----- descending by the digits of a key -----

  /** Where the descent of Put and Get ends: at an entry, or at a free address. */
  function Descend(ns: Nodes, k: Key, p: Path): Path
    requires p in ns
    decreases Beneath(ns, p)
  {
    if ns[p].entry.Some? then p
    else
      var q := p + [Digit(k, |p|)];
      BeneathChild(ns, p, Digit(k, |p|));
      if q in ns then Descend(ns, k, q) else q
  }

  lemma {:induction false} DescendEnds(ns: Nodes, k: Key, p: Path)
    requires Shape(ns) && p in ns && OnPath(k, p) && |k| == KEY_SIZE
    ensures var q := Descend(ns, k, p);
            && q != [] && OnPath(k, q)
            && (q in ns ==> IsEntry(ns, q)) && (q !in ns ==> FreeFor(ns, q, k))
    decreases Beneath(ns, p)
  {
    if ns[p].entry.None? {
      var d := Digit(k, |p|);
      var q := p + [d];
      BeneathChild(ns, p, d);
      assert Parent(q) == p;
      if q in ns {
        DescendEnds(ns, k, q);
      }
    }
  }

  /** The descent for a stored key ends at its home. */
  lemma DescendFinds(ns: Nodes, k: Key)
    requires Shape(ns) && |k| == KEY_SIZE && k in Model(ns)
    ensures Descend(ns, k, []) == Home(ns, k)
  {
    var q, h := Descend(ns, k, []), Home(ns, k);
    DescendEnds(ns, k, []);
    ModelHome(ns, k);
    hide Descend, Digit, Model;
    assert NodeOk(ns, h);
    SamePrefix(k, q, h);
    assert |h| < |q| ==> Parent(q)[..|h|] == q[..|h|];
    if |q| < |h| {
      PrefixIsInner(ns, h, |q|);
    } else if |h| < |q| {
      if q in ns {
        PrefixIsInner(ns, q, |h|);
      } else if |h| < |q| - 1 {
        PrefixIsInner(ns, Parent(q), |h|);
      }
    }
  }

  /** Two keys that share all their digits up to level 122 are one key. */
  lemma SplitEnds(a: Key, b: Key, q: Path)
    requires |a| == |b| == KEY_SIZE && OnPath(a, q) && OnPath(b, q) && a != b
    ensures |q| < KEY_LEVELS
  {
    if |q| >= KEY_LEVELS {
      forall level: nat | level < KEY_LEVELS
        ensures Digit(a, level) == Digit(b, level)
      {
        assert q[level] == Digit(a, level) == Digit(b, level);
      }
      DistinctKeysDiffer(a, b);
    }
  }

  // ----- whole operations on the model -----

  /** Stamps of different entries differ, none is newer than the access counter,
      and only pending requests have no stamp. */
  ghost predicate Fair(m: Cache, accessCnt: nat) {
    && (forall j, k :: j in m && k in m && j != k && m[j].stamp != 0 ==> m[j].stamp != m[k].stamp)
    && (forall k :: k in m ==> m[k].stamp <= accessCnt)
    && (forall k :: k in m && m[k].stamp == 0 ==> m[k].chunk.sdata.None?)
  }

  lemma FairBounds(ns: Nodes, accessCnt: nat)
    requires Shape(ns) && AllOk(ns) && Fair(Model(ns), accessCnt)
    ensures forall d: Cell {:trigger V(ns, d)} :: V(ns, d) <= accessCnt
  {
    hide Model, Left, Right, Ok, Width;
    forall d: Cell
      ensures V(ns, d) <= accessCnt
    {
      if V(ns, d) != 0 {
        StampedCell(ns, d);
        var p :| IsEntry(ns, p) && V(ns, Cell(p, 0)) == V(ns, d);
        ModelAt(ns, p);
      }
    }
  }

  lemma StampedCell(ns: Nodes, d: Cell)
    requires Shape(ns) && AllOk(ns) && V(ns, d) != 0
    ensures exists p :: IsEntry(ns, p) && V(ns, Cell(p, 0)) == V(ns, d)
  {
    assert NodeOk(ns, d.path);
    if IsEntry(ns, d.path) {
      assert d == Cell(d.path, 0);
    } else {
      assert Inner(ns, d);
      CellIsLeastStamp(ns, d);
    }
  }

  lemma FairPending(ns: Nodes, accessCnt: nat)
    requires Shape(ns) && Fair(Model(ns), accessCnt)
    ensures UnstampedArePending(ns)
  {
    forall p | IsEntry(ns, p) && V(ns, Cell(p, 0)) == 0
      ensures ns[p].entry.value.sdata.None?
    {
      ModelAt(ns, p);
    }
  }

  lemma EvictedFair(m: Cache, k: Key, accessCnt: nat)
    requires Fair(m, accessCnt) && IsOldest(m, k)
    ensures Fair(Evicted(m, k), accessCnt)
    ensures |Evicted(m, k)| == if m[k].chunk.sdata.Some? then |m| - 1 else |m|
  {
    if m[k].chunk.sdata.Some? {
      assert (m - {k}).Keys == m.Keys - {k};
    } else {
      assert Evicted(m, k).Keys == m.Keys;
    }
  }

  lemma StampedFair(m: Cache, k: Key, e: Chunk, accessCnt: nat, a: nat)
    requires Fair(m, accessCnt) && a > accessCnt
    ensures Fair(m[k := Slot(e, a)], a)
  {
  }

  lemma SizeOfUpdate(m: Cache, k: Key, v: Slot)
    ensures |m[k := v]| == if k in m then |m| else |m| + 1
  {
    assert m[k := v].Keys == m.Keys + {k};
  }

  /** Get, and the first half of Put on a resident key. */
  lemma RestampModel(ns: Nodes, p: Path, a: nat)
    requires Shape(ns) && AllOk(ns) && IsEntry(ns, p) && a != 0
    requires forall d: Cell {:trigger V(ns, d)} :: V(ns, d) <= a
    requires ValidClimb(ns, Cell(p, 0))
    ensures var ns' := Climb(ns, Cell(p, 0), V(ns, Cell(p, 0)), a);
            && Shape(ns') && AllOk(ns') && p in ns' && ns'[p].entry == ns[p].entry
            && Model(ns') == Model(ns)[KeyAt(ns, p) := Slot(ns[p].entry.value, a)]
  {
    UpdateEntry(ns, p, a);
    var ns' := Climb(ns, Cell(p, 0), V(ns, Cell(p, 0)), a);
    hide Climb, Shape, AllOkBut;
    RewriteModel(ns, ns', p);
  }

  function Replaced(ns: Nodes, p: Path, e: Chunk): Nodes
    requires p in ns
  {
    ns[p := ns[p].(entry := Some(e))]
  }

  lemma ReplaceModel(ns: Nodes, p: Path, e: Chunk)
    requires Shape(ns) && AllOk(ns) && IsEntry(ns, p) && e.key == KeyAt(ns, p)
    ensures Shape(Replaced(ns, p, e)) && AllOk(Replaced(ns, p, e))
    ensures Model(Replaced(ns, p, e)) == Model(ns)[e.key := Slot(e, V(ns, Cell(p, 0)))]
  {
    var ns' := Replaced(ns, p, e);
    hide Digit, Left, Right, Model, Width, OnPath;
    forall q | q in ns'
      ensures NodeOk(ns', q)
    {
      assert NodeOk(ns, q);
    }
    forall c: Cell | Inner(ns', c)
      ensures Ok(ns', c)
    {
      assert Inner(ns, c);
    }
    hide Shape, AllOkBut;
    RewriteModel(ns, ns', p);
  }

  /** Put of a new key at a free address. */
  lemma PutNewModel(ns: Nodes, q: Path, e: Chunk, a: nat)
    requires Shape(ns) && AllOk(ns) && FreeFor(ns, q, e.key) && a != 0
    requires forall d: Cell {:trigger V(ns, d)} :: V(ns, d) <= a
    ensures e.key !in Model(ns) && Shape(AddLeaf(ns, q, e)) && ValidClimb(AddLeaf(ns, q, e), Cell(q, 0))
    ensures V(AddLeaf(ns, q, e), Cell(q, 0)) == 0
    ensures var ns' := Climb(AddLeaf(ns, q, e), Cell(q, 0), 0, a);
            Shape(ns') && AllOk(ns') && Model(ns') == Model(ns)[e.key := Slot(e, a)]
  {
    AddLeafOk(ns, q, e);
    AddLeafModel(ns, q, e);
    var n1 := AddLeaf(ns, q, e);
    ShapeClimb(n1, Cell(q, 0));
    hide Climb, Shape, AllOkBut, Model, FreeFor, ValidClimb;
    assert V(n1, Cell(q, 0)) == 0;
    RestampModel(n1, q, a);
  }

  /** One round of the split loop changes neither the map nor the invariants. */
  lemma SplitRound(ns: Nodes, q: Path)
    requires Shape(ns) && AllOk(ns) && IsEntry(ns, q) && q != []
    ensures |ns[q].access| > 0
    ensures var n1, st := Moved(ns, q, ns[q].access, ZEROS), q + [Digit(KeyAt(ns, q), |q|)];
            && st !in ns && st in n1 && Shape(n1) && V(n1, Cell(st, 0)) == 0 && ValidClimb(n1, Cell(st, 0))
            && Climb(n1, Cell(st, 0), 0, ns[q].access[0]) == SplitNode(ns, q)
    ensures |KeyAt(ns, q)| == KEY_SIZE
    ensures Shape(SplitNode(ns, q)) && AllOk(SplitNode(ns, q)) && Model(SplitNode(ns, q)) == Model(ns)
  {
    assert NodeOk(ns, q);
    EntryIsLeaf(ns, q, Digit(KeyAt(ns, q), |q|));
    hide Digit, Model, Climb, AllOkBut, ValidClimb;
    SplitOk(ns, q);
    SplitModel(ns, q);
    SplitClimb(ns, q);
  }
}
