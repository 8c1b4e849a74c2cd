/** MemStore: the memory cache, an LRU map kept in a hash-prefix tree. */
module MemStore {
  import opened Bytes
  import opened Keys
  import opened MemTree
  import opened MemUpdate
  import opened MemEvict
  import opened MemModel

  /** The second half of removeOldest: carrying a repaired value up to the root. */
  function Repair(ns: Nodes, d: Cell): (ns': Nodes)
    requires ValidClimb(ns, d)
    decreases |d.path|, d.i
  {
    if d == ROOT then ns
    else
      var v := MinNZ(V(ns, Up(d)), V(ns, d));
      SetKeepsClimb(ns, Up(d), Up(d), v);
      Repair(Set(ns, Up(d), v), Up(d))
  }

  /** The outcome of the whole removal, seen from the middle of the descent. */
  function Finish(r: Removal, c: Cell): Removal
    requires r.Removed? ==> ValidClimb(r.ns, c)
  {
    if r.Removed? then Removed(Repair(r.ns, c), r.leaf) else r
  }

  lemma {:induction false} SizedClimb(ns: Nodes, ns': Nodes, c: Cell)
    requires ValidClimb(ns, c) && Sized(ns) && Sized(ns') && ns'.Keys == ns.Keys
    ensures ValidClimb(ns', c)
    decreases |c.path|, c.i
  {
    if c != ROOT {
      SizedClimb(ns, ns', Up(c));
    }
  }

  ghost predicate Descending(ns: Nodes, c: Cell) {
    Sized(ns) && c.path in ns && c.i < Width(c.path) - 1 && ValidClimb(ns, c)
  }

  lemma ClimbChild(ns: Nodes, c: Cell, d: Cell, v: nat)
    requires Descending(ns, c) && IsCell(c)
    requires (d == Left(c) || d == Right(c)) && d.path in ns
    ensures d != ROOT && Up(d) == c && IsCell(d) && Descending(Set(ns, c, v), d)
  {
    LeftUp(c);
    RightUp(c);
    hide Left, Right, Sib, Up, Width;
    SetKeepsClimb(ns, c, c, v);
    SizedSet(ns, c, v);
    var n1 := Set(ns, c, v);
    assert |n1[d.path].access| == Width(d.path) - 1;
    hide Sized, Set;
  }

  lemma SizedSet(ns: Nodes, c: Cell, v: nat)
    requires Sized(ns) && c.path in ns && c.i < |ns[c.path].access|
    ensures Sized(Set(ns, c, v))
  {
  }

  /** One step of the descent does not change the outcome. */
  lemma DescentStep(ns: Nodes, c: Cell, d: Cell, s: Cell, av: nat)
    requires Descending(ns, c) && IsCell(c) && ns[c.path].entry.None?
    requires (d == Left(c) && s == Right(c)) || (d == Right(c) && s == Left(c))
    requires d.path in ns && av == V(ns, d)
    requires d == Right(c) ==> !(s.path in ns && av == V(ns, s))
    ensures Up(d) == c && Descending(Set(ns, c, V(ns, s)), d)
    ensures var n1 := Set(ns, c, V(ns, s));
            && (Remove(ns, c, av).Removed? ==> ValidClimb(Remove(ns, c, av).ns, c))
            && (Remove(n1, d, av).Removed? ==> ValidClimb(Remove(n1, d, av).ns, d))
            && Finish(Remove(n1, d, av), d) == Finish(Remove(ns, c, av), c)
  {
    ClimbChild(ns, c, d, V(ns, s));
    var n1 := Set(ns, c, V(ns, s));
    var r1 := Remove(n1, d, av);
    assert Remove(ns, c, av) == Rejoin(r1, c, d);
    hide Remove, Left, Right, Sib, Beneath;
    if r1.Removed? {
      SizedClimb(n1, r1.ns, d);
      SizedClimb(ns, Rejoin(r1, c, d).ns, c);
    }
  }

  /** The invariant of the cache. */
  ghost predicate Good(ns: Nodes, entryCnt: nat, accessCnt: nat) {
    && Shape(ns) && AllOk(ns)
    && entryCnt == |Model(ns)|
    && Fair(Model(ns), accessCnt)
  }

  /** The descent stands at c, and finishing from here gives the goal. */
  ghost predicate OnTrack(goal: Removal, ns: Nodes, c: Cell, av: nat) {
    && Descending(ns, c) && IsCell(c) && V(ns, c) == av
    && (Remove(ns, c, av).Removed? ==> ValidClimb(Remove(ns, c, av).ns, c))
    && Finish(Remove(ns, c, av), c) == goal
  }

  lemma StartOnTrack(ns: Nodes)
    requires Shape(ns)
    ensures Sized(ns)
    ensures OnTrack(Remove(ns, ROOT, V(ns, ROOT)), ns, ROOT, V(ns, ROOT))
  {
    ShapeSized(ns);
    ShapeClimb(ns, ROOT);
    hide Remove;
    var r := Remove(ns, ROOT, V(ns, ROOT));
    if r.Removed? {
      SizedClimb(ns, r.ns, ROOT);
    }
  }

  lemma StaysOnTrack(goal: Removal, ns: Nodes, c: Cell, d: Cell, s: Cell, av: nat)
    requires OnTrack(goal, ns, c, av) && ns[c.path].entry.None?
    requires (d == Left(c) && s == Right(c)) || (d == Right(c) && s == Left(c))
    requires d.path in ns && av == V(ns, d)
    requires d == Right(c) ==> !(s.path in ns && av == V(ns, s))
    ensures OnTrack(goal, Set(ns, c, V(ns, s)), d, av)
  {
    DescentStep(ns, c, d, s, av);
    ClimbChild(ns, c, d, V(ns, s));
    hide Remove, Left, Right, Sib, Finish;
    assert d != c;
  }

  lemma TrackedCell(goal: Removal, ns: Nodes, c: Cell, av: nat)
    requires OnTrack(goal, ns, c, av)
    ensures c.path in ns && c.i < |ns[c.path].access|
  {
  }

  lemma WalkStep(goal: Removal, ns: Nodes, c: Cell, d: Cell, s: Cell, av: nat)
    requires OnTrack(goal, ns, c, av) && ns[c.path].entry.None?
    requires (d == Left(c) && s == Right(c)) || (d == Right(c) && s == Left(c))
    requires d.path == s.path == c.path && av == V(ns, d)
    requires d == Right(c) ==> av != V(ns, s)
    ensures c.i < |ns[c.path].access|
    ensures var n1 := Set(ns, c, V(ns, s));
            && OnTrack(goal, n1, d, av) && n1.Keys == ns.Keys && n1[c.path].entry.None?
            && d.i < |n1[c.path].access|
  {
    StaysOnTrack(goal, ns, c, d, s, av);
    TrackedCell(goal, Set(ns, c, V(ns, s)), d, av);
  }

  lemma BranchTaken(goal: Removal, ns: Nodes, c: Cell, d: Cell, s: Cell, av: nat, k: nat)
    requires OnTrack(goal, ns, c, av) && ns[c.path].entry.None?
    requires (d == Left(c) && s == Right(c)) || (d == Right(c) && s == Left(c))
    requires d == Cell(c.path + [k], 0) && d.path in ns && av == V(ns, d)
    requires d == Right(c) ==> !(s.path in ns && av == V(ns, s))
    ensures var n1 := Set(ns, c, V(ns, s));
            && d.path in n1 && |n1[d.path].access| == Width(d.path) - 1
            && av == n1[d.path].access[0]
            && OnTrack(goal, n1, d, av) && n1.Keys == ns.Keys
            && Beneath(n1, d.path) < Beneath(ns, c.path)
  {
    StaysOnTrack(goal, ns, c, d, s, av);
    BeneathChild(ns, c.path, k);
    hide Remove, Finish, Left, Right, ValidClimb;
    assert Beneath(Set(ns, c, V(ns, s)), d.path) == Beneath(ns, d.path);
  }

  lemma TrackPanics(goal: Removal, ns: Nodes, c: Cell, av: nat)
    requires OnTrack(goal, ns, c, av) && ns[c.path].entry.None?
    requires !(Left(c).path in ns && av == V(ns, Left(c)))
    requires !(Right(c).path in ns && av == V(ns, Right(c)))
    ensures goal.Panicked?
  {
  }

  lemma TrackLeaf(goal: Removal, ns: Nodes, c: Cell, av: nat)
    requires OnTrack(goal, ns, c, av) && ns[c.path].entry.Some? && |ns[c.path].access| > 0
    ensures ValidClimb(Evict(ns, c.path), c)
    ensures goal == Removed(Repair(Evict(ns, c.path), c), c.path)
  {
  }

  lemma RepairStep(ns: Nodes, d: Cell)
    requires ValidClimb(ns, d) && d != ROOT
    ensures Up(d).path in ns && Up(d).i < |ns[Up(d).path].access|
    ensures var n1 := Set(ns, Up(d), MinNZ(V(ns, Up(d)), V(ns, d)));
            ValidClimb(n1, Up(d)) && Repair(ns, d) == Repair(n1, Up(d))
  {
    SetKeepsClimb(ns, Up(d), Up(d), MinNZ(V(ns, Up(d)), V(ns, d)));
  }

  class Store {
    var nodes: Nodes
    var entryCnt: nat
    var capacity: nat
    var accessCnt: nat

    ghost predicate Valid()
      reads this
    {
      Good(nodes, entryCnt, accessCnt)
    }

    /** memTree.updateAccess */
    method UpdateAccess(start: Path, stamp: nat)
      requires Shape(nodes) && start in nodes
      modifies `nodes
      ensures ValidClimb(old(nodes), Cell(start, 0))
      ensures nodes == Climb(old(nodes), Cell(start, 0), V(old(nodes), Cell(start, 0)), stamp)
    {
      ghost var first := Cell(start, 0);
      ShapeClimb(nodes, first);
      ghost var was := nodes;
      var c, a := Cell(start, 0), stamp;
      var oa := V(nodes, c);
      while V(nodes, c) == oa
        invariant ValidClimb(nodes, c)
        invariant Climb(nodes, c, oa, a) == Climb(was, first, oa, stamp)
        decreases |c.path|, c.i
      {
        ghost var before := nodes;
        nodes := Set(nodes, c, a);
        if c == ROOT {
          return;
        }
        ClimbStep(before, c, oa, a);
        hide Climb, ValidClimb, V;
        var aa := V(nodes, Sib(c));
        c := Up(c);
        if aa != 0 && aa < a {
          a := aa;
        }
      }
    }

    /** The tree part of MemStore.removeOldest; panicked marks panic(nil). */
    method RemoveFromTree() returns (panicked: bool, leaf: Path)
      requires Shape(nodes)
      modifies `nodes
      ensures Sized(old(nodes))
      ensures panicked <==> Remove(old(nodes), ROOT, V(old(nodes), ROOT)).Panicked?
      ensures !panicked ==> Remove(old(nodes), ROOT, V(old(nodes), ROOT)) == Removed(nodes, leaf)
    {
      StartOnTrack(nodes);
      ghost var goal := Remove(nodes, ROOT, V(nodes, ROOT));
      hide Remove, Finish, Left, Right, ValidClimb;
      var node: Path := [];
      while nodes[node].entry.None?
        invariant node in nodes && |nodes[node].access| == Width(node) - 1
        invariant OnTrack(goal, nodes, Cell(node, 0), nodes[node].access[0])
        decreases Beneath(nodes, node)
      {
        ghost var n0 := nodes;
        var av := nodes[node].access[0];
        var aidx: nat;
        panicked, aidx := WalkNode(node, av, goal);
        if panicked {
          return true, [];
        }
        assert Beneath(nodes, node) == Beneath(n0, node);
        panicked, node := StepDown(node, aidx, av, goal);
        if panicked {
          return true, [];
        }
      }
      TrackLeaf(goal, nodes, Cell(node, 0), nodes[node].access[0]);
      leaf := node;
      nodes := Evict(nodes, node);
      CarryUp(node);
      panicked := false;
    }

    /** From the last round of the tournament into one of two subtrees. */
    method StepDown(node: Path, aidx: nat, av: nat, ghost goal: Removal) returns (panicked: bool, next: Path)
      requires node in nodes && nodes[node].entry.None?
      requires Width(node) / 2 - 1 <= aidx < Width(node) - 1
      requires OnTrack(goal, nodes, Cell(node, aidx), av)
      modifies `nodes
      ensures nodes.Keys == old(nodes).Keys
      ensures panicked ==> goal.Panicked?
      ensures !panicked ==>
                && next in nodes && |nodes[next].access| == Width(next) - 1
                && av == nodes[next].access[0]
                && OnTrack(goal, nodes, Cell(next, 0), av)
                && Beneath(nodes, next) < Beneath(old(nodes), node)
    {
      hide Remove, Finish, Left, Right, ValidClimb, Beneath, OnTrack;
      ghost var c := Cell(node, aidx);
      TrackedCell(goal, nodes, c, av);
      var pidx := aidx * 2 + 2 - Width(node);
      BottomCell(c, pidx);
      var l, r := Cell(node + [pidx], 0), Cell(node + [pidx + 1], 0);
      if l.path in nodes && av == V(nodes, l) {
        BranchTaken(goal, nodes, c, l, r, av, pidx);
        nodes := Set(nodes, Cell(node, aidx), V(nodes, r));
        next := l.path;
      } else if r.path in nodes && av == V(nodes, r) {
        BranchTaken(goal, nodes, c, r, l, av, pidx + 1);
        nodes := Set(nodes, Cell(node, aidx), V(nodes, l));
        next := r.path;
      } else {
        TrackPanics(goal, nodes, c, av);
        return true, [];
      }
      panicked := false;
    }

    /** The inner loop: down the tournament of one node. */
    method WalkNode(node: Path, av: nat, ghost goal: Removal) returns (panicked: bool, aidx: nat)
      requires node in nodes && nodes[node].entry.None?
      requires OnTrack(goal, nodes, Cell(node, 0), av)
      modifies `nodes
      ensures nodes.Keys == old(nodes).Keys
      ensures panicked ==> goal.Panicked?
      ensures !panicked ==>
                && Width(node) / 2 - 1 <= aidx < Width(node) - 1
                && nodes[node].entry.None? && OnTrack(goal, nodes, Cell(node, aidx), av)
    {
      hide OnTrack, V, Set;
      aidx := 0;
      TrackedCell(goal, nodes, Cell(node, 0), av);
      while aidx < Width(node) / 2 - 1
        invariant nodes.Keys == old(nodes).Keys
        invariant aidx < Width(node) - 1 && aidx < |nodes[node].access|
        invariant nodes[node].entry.None? && OnTrack(goal, nodes, Cell(node, aidx), av)
        decreases Width(node) - aidx
      {
        ghost var c := Cell(node, aidx);
        var l, r := Cell(node, aidx * 2 + 1), Cell(node, aidx * 2 + 2);
        assert Left(c) == l && Right(c) == r;
        if av == V(nodes, l) {
          WalkStep(goal, nodes, c, l, r, av);
          nodes := Set(nodes, Cell(node, aidx), V(nodes, r));
          aidx := aidx * 2 + 1;
        } else if av == V(nodes, r) {
          WalkStep(goal, nodes, c, r, l, av);
          nodes := Set(nodes, Cell(node, aidx), V(nodes, l));
          aidx := aidx * 2 + 2;
        } else {
          TrackPanics(goal, nodes, c, av);
          return true, aidx;
        }
      }
      panicked := false;
    }

    /** The second half of removeOldest. */
    method CarryUp(start: Path)
      requires ValidClimb(nodes, Cell(start, 0))
      modifies `nodes
      ensures nodes == Repair(old(nodes), Cell(start, 0))
    {
      var d := Cell(start, 0);
      ghost var goal := Repair(nodes, d);
      while d != ROOT
        invariant ValidClimb(nodes, d)
        invariant Repair(nodes, d) == goal
        decreases |d.path|, d.i
      {
        RepairStep(nodes, d);
        hide Repair, ValidClimb;
        var aa := V(nodes, d);
        d := Up(d);
        if aa != 0 && (aa < V(nodes, d) || V(nodes, d) == 0) {
          nodes := Set(nodes, d, aa);
        } else {
          SetSame(nodes, d);
        }
      }
    }

    /** NewMemStore */
    constructor (cap: nat)
      ensures Valid() && Model(nodes) == map[] && capacity == cap && accessCnt == 0
    {
      nodes := map[[] := Node(None, seq(ROOT_WIDTH - 1, _ => 0))];
      entryCnt, capacity, accessCnt := 0, cap, 0;
      new;
      EmptyTree(nodes);
    }

    /** MemStore.removeOldest. Without any stamp left it panics or changes nothing. */
    method RemoveOldest() returns (panicked: bool, ghost victim: Option<Key>)
      requires Valid()
      modifies `nodes, `entryCnt
      ensures panicked ==> !SomeStamp(Model(old(nodes)))
      ensures !panicked ==> Valid()
      ensures !panicked ==> VictimOk(Model(old(nodes)), true, victim)
      ensures !panicked ==> Model(nodes) == WithoutVictim(Model(old(nodes)), victim)
      ensures !panicked ==> (nodes == old(nodes) <==> victim.None?)
    {
      hide Model, Remove, Good, VictimOk, WithoutVictim, VictimOf, SomeStamp, Shape, Sized, V;
      RemovalOutcome(nodes, entryCnt, accessCnt);
      var leaf: Path;
      panicked, leaf := RemoveFromTree();
      victim := VictimOf(old(nodes), leaf);
      if !panicked && nodes[leaf].entry.None? {
        entryCnt := entryCnt - 1;
      }
    }

    /** The descent that Put and Get share. */
    method Locate(k: Key) returns (node: Path)
      requires Shape(nodes) && |k| == KEY_SIZE
      ensures [] in nodes && node == Descend(nodes, k, [])
    {
      node := [];
      var bitpos := 0;
      while nodes[node].entry.None?
        invariant node in nodes && [] in nodes
        invariant bitpos == LevelPos(|node|)
        invariant Descend(nodes, k, node) == Descend(nodes, k, [])
        decreases Beneath(nodes, node)
      {
        hide Digit, BitField;
        var l := DigitOf(k, bitpos, |node|);
        BeneathChild(nodes, node, l);
        var st := node + [l];
        if st !in nodes {
          return st;
        }
        bitpos := bitpos + LevelBits(|node|);
        node := st;
      }
    }

    /** MemStore.Get */
    method Get(k: Key) returns (chunk: Option<Chunk>)
      requires Valid() && |k| == KEY_SIZE
      modifies `nodes, `accessCnt
      ensures Valid()
      ensures chunk.Some? <==> k in Model(old(nodes))
      ensures chunk.None? ==> nodes == old(nodes) && accessCnt == old(accessCnt)
      ensures chunk.Some? ==> chunk.value == Model(old(nodes))[k].chunk
                              && accessCnt == old(accessCnt) + 1
                              && Model(nodes) == Model(old(nodes))[k := Slot(chunk.value, accessCnt)]
    {
      hide Model, Shape, AllOkBut, Fair, Descend, Climb, ValidClimb;
      var node := Locate(k);
      LookupOutcome(nodes, k);
      chunk := None;
      if node in nodes && nodes[node].entry.value.key == k {
        chunk := nodes[node].entry;
        accessCnt := accessCnt + 1;
        RestampOutcome(nodes, node, entryCnt, accessCnt - 1);
        UpdateAccess(node, accessCnt);
      }
    }

    /** The split loop of Put: the entry in the way moves down digit by digit
        until the two keys part. */
    method SplitFor(start: Path, k: Key) returns (node: Path)
      requires Shape(nodes) && AllOk(nodes) && IsEntry(nodes, start) && start != []
      requires |k| == KEY_SIZE && OnPath(k, start) && KeyAt(nodes, start) != k
      modifies `nodes
      ensures Shape(nodes) && AllOk(nodes) && Model(nodes) == Model(old(nodes)) && FreeFor(nodes, node, k)
    {
      hide Model, Shape, AllOkBut, Climb, ValidClimb, Digit, OnPath, Moved, SplitNode;
      node := start;
      while node in nodes
        invariant Shape(nodes) && AllOk(nodes) && Model(nodes) == Model(old(nodes))
        invariant node != [] && OnPath(k, node)
        invariant node in nodes ==> IsEntry(nodes, node) && KeyAt(nodes, node) != k
        invariant node !in nodes ==> FreeFor(nodes, node, k)
        decreases KEY_LEVELS - |node|
      {
        ghost var ns := nodes;
        SplitRound(ns, node);
        SplitNext(ns, node, k);
        var e := nodes[node].entry;
        var l := DigitOf(e.value.key, LevelPos(|node|), |node|);
        var x := nodes[node].access[0];
        nodes := Moved(nodes, node, nodes[node].access, ZEROS);
        UpdateAccess(node + [l], x);
        l := DigitOf(k, LevelPos(|node|), |node|);
        node := node + [l];
      }
    }

    method PutInTree(entry: Chunk) returns (stored: Chunk)
      requires Valid() && |entry.key| == KEY_SIZE
      modifies `nodes, `entryCnt, `accessCnt
      ensures Valid() && accessCnt == old(accessCnt) + 1
      ensures stored == Merge(entry, Model(old(nodes)))
      ensures HandsOver(Model(old(nodes)), entry, stored)
      ensures Model(nodes) == Model(old(nodes))[entry.key := Slot(stored, accessCnt)]
    {
      MergeHandsOver(entry, Model(nodes));
      hide Model, Shape, AllOkBut, Fair, Descend, Climb, ValidClimb, Digit, OnPath, FreeFor;
      accessCnt := accessCnt + 1;
      var node := Locate(entry.key);
      LookupOutcome(nodes, entry.key);
      if node in nodes && nodes[node].entry.value.key == entry.key {
        stored := Taking(entry, nodes[node].entry.value);
        ReplaceOutcome(nodes, node, stored, entryCnt, accessCnt - 1);
        UpdateAccess(node, accessCnt);
        nodes := Replaced(nodes, node, stored);
        return;
      }
      if node in nodes {
        node := SplitFor(node, entry.key);
      }
      stored := entry;
      PutNewOutcome(nodes, node, entry, entryCnt, accessCnt - 1);
      nodes := AddLeaf(nodes, node, entry);
      UpdateAccess(node, accessCnt);
      entryCnt := entryCnt + 1;
    }

    /** MemStore.Put. The chunk that ends up in the cache takes over what the
        resident chunk knew. */
    method Put(entry: Chunk) returns (panicked: bool, stored: Chunk, ghost victim: Option<Key>)
      requires Valid() && |entry.key| == KEY_SIZE
      modifies this
      ensures capacity == old(capacity)
      ensures capacity == 0 ==> !panicked && nodes == old(nodes) && Valid()
      ensures panicked ==> !SomeStamp(Model(old(nodes))) && capacity <= old(entryCnt)
      ensures !panicked && capacity > 0 ==>
                && Valid() && accessCnt == old(accessCnt) + 1
                && VictimOk(Model(old(nodes)), capacity <= old(entryCnt), victim)
                && stored == Merge(entry, WithoutVictim(Model(old(nodes)), victim))
                && Model(nodes) == WithoutVictim(Model(old(nodes)), victim)[entry.key := Slot(stored, accessCnt)]
      ensures !panicked && capacity > 0 && entry.sdata.Some? && AllData(Model(old(nodes))) && old(entryCnt) <= capacity
              ==> AllData(Model(nodes)) && entryCnt <= capacity
      ensures !panicked && capacity > 0 ==>
                && entry.key in Model(nodes) && Model(nodes)[entry.key].chunk == stored
                && HandsOver(WithoutVictim(Model(old(nodes)), victim), entry, stored)
                && DataKept(Model(old(nodes)), Model(nodes), victim, entry)
                && RequestsKept(Model(old(nodes)), Model(nodes), victim, entry)
    {
      hide HandsOver, DataKept, RequestsKept;
      hide Model, Shape, AllOkBut, Fair, Descend, Climb, ValidClimb, Good, VictimOk, WithoutVictim, SomeStamp, Moved;
      panicked, stored, victim := false, entry, None;
      if capacity == 0 {
        return;
      }
      GoodFacts(nodes, entryCnt, accessCnt);
      ghost var m0 := Model(nodes);
      if entryCnt >= capacity {
        panicked, victim := RemoveOldest();
        if panicked {
          return;
        }
      } else {
        NoVictim(m0);
      }
      ghost var m1 := Model(nodes);
      stored := PutInTree(entry);
      PutFits(m0, old(entryCnt), capacity, victim, m1, entry, stored, old(accessCnt), accessCnt);
      PutKeeps(m0, victim, entry, stored, accessCnt);
      GoodFacts(nodes, entryCnt, accessCnt);
    }

    /** MemStore.setCapacity. The loop of the source ends exactly when the pending
        requests, which are never evicted, fit into the new capacity; otherwise
        it runs into panic(nil) or repeats removeOldest without effect for ever. */
    method SetCapacity(c: nat) returns (outcome: Outcome)
      requires Valid()
      modifies `nodes, `entryCnt, `capacity
      ensures outcome == Done <==> |Pending(Model(old(nodes)))| <= c
      ensures outcome == Done ==> Valid() && capacity == c && entryCnt <= c
      ensures outcome == Done ==> Shrunk(Model(old(nodes)), Model(nodes))
      ensures outcome == Done && old(entryCnt) <= c ==> nodes == old(nodes)
      ensures outcome == Done && old(entryCnt) >= c ==> entryCnt == c
    {
      hide Model, Good, Shrunk, Pending, Stamped, SomeStamp, VictimOk, WithoutVictim;
      ghost var m0 := Model(nodes);
      ShrunkRefl(m0);
      while c < entryCnt
        invariant Valid() && Shrunk(m0, Model(nodes))
        invariant old(entryCnt) <= c ==> nodes == old(nodes) && entryCnt == old(entryCnt)
        invariant old(entryCnt) >= c ==> entryCnt >= c
        decreases Stamped(Model(nodes))
      {
        GoodFacts(nodes, entryCnt, accessCnt);
        var before := nodes;
        var panicked;
        ghost var victim;
        panicked, victim := RemoveOldest();
        CapacityStep(m0, Model(before), Model(nodes), accessCnt, panicked, victim);
        if panicked {
          return Panics;
        }
        if nodes == before {
          return Spins;
        }
        GoodFacts(nodes, entryCnt, accessCnt);
      }
      GoodFacts(nodes, entryCnt, accessCnt);
      PendingFits(m0, Model(nodes));
      capacity := c;
      outcome := Done;
    }
  }

  datatype Outcome = Done | Panics | Spins

  lemma ShrunkRefl(m: Cache)
    ensures Shrunk(m, m)
  {
  }

  lemma CapacityStep(m0: Cache, m: Cache, m': Cache, accessCnt: nat, panicked: bool, victim: Option<Key>)
    requires Shrunk(m0, m) && Fair(m, accessCnt)
    requires panicked ==> !SomeStamp(m)
    requires !panicked ==> VictimOk(m, true, victim) && m' == WithoutVictim(m, victim)
    ensures !panicked && victim.Some? ==> Shrunk(m0, m') && Stamped(m') < Stamped(m)
    ensures panicked || victim.None? ==> |Pending(m0)| == |m|
    ensures !panicked ==> |m'| >= |m| - 1
  {
    if !panicked && victim.Some? {
      ShrinkStep(m0, m, victim.value, accessCnt);
      EvictedFair(m, victim.value, accessCnt);
    } else {
      NoStampAllPending(m, accessCnt);
    }
  }

  method DigitOf(k: Key, bitpos: nat, level: nat) returns (l: nat)
    requires |k| == KEY_SIZE && bitpos == LevelPos(level)
    ensures l == Digit(k, level)
  {
    l := Bits(k, bitpos, LevelBits(level));
  }

  lemma LookupOutcome(ns: Nodes, k: Key)
    requires Shape(ns) && |k| == KEY_SIZE
    ensures [] in ns
    ensures var q := Descend(ns, k, []);
            && q != [] && OnPath(k, q)
            && (q in ns ==> IsEntry(ns, q)) && (q !in ns ==> FreeFor(ns, q, k))
            && (k in Model(ns) <==> q in ns && KeyAt(ns, q) == k)
            && (k in Model(ns) ==> Model(ns)[k].chunk == ns[q].entry.value)
  {
    DescendEnds(ns, k, []);
    hide Descend, Model, Digit, OnPath, FreeFor;
    if k in Model(ns) {
      DescendFinds(ns, k);
      ModelHome(ns, k);
    }
    var q := Descend(ns, k, []);
    if q in ns && KeyAt(ns, q) == k {
      ModelAt(ns, q);
    }
  }

  lemma RestampOutcome(ns: Nodes, p: Path, cnt: nat, accessCnt: nat)
    requires Good(ns, cnt, accessCnt) && IsEntry(ns, p)
    ensures ValidClimb(ns, Cell(p, 0))
    ensures var ns' := Climb(ns, Cell(p, 0), V(ns, Cell(p, 0)), accessCnt + 1);
            && Good(ns', cnt, accessCnt + 1) && p in ns' && ns'[p].entry == ns[p].entry
            && Model(ns') == Model(ns)[KeyAt(ns, p) := Slot(ns[p].entry.value, accessCnt + 1)]
  {
    hide Climb, Model, Shape, AllOkBut, ValidClimb, Fair;
    var k, e := KeyAt(ns, p), ns[p].entry.value;
    ShapeClimbEntry(ns, p);
    FairBounds(ns, accessCnt);
    RestampModel(ns, p, accessCnt + 1);
    ModelAt(ns, p);
    SizeOfUpdate(Model(ns), k, Slot(e, accessCnt + 1));
    StampedFair(Model(ns), k, e, accessCnt, accessCnt + 1);
  }

  lemma ShapeClimbEntry(ns: Nodes, p: Path)
    requires Shape(ns) && IsEntry(ns, p)
    ensures ValidClimb(ns, Cell(p, 0))
  {
    ShapeClimb(ns, Cell(p, 0));
  }

  /** Put on a resident key. */
  lemma ReplaceOutcome(ns: Nodes, p: Path, e: Chunk, cnt: nat, accessCnt: nat)
    requires Good(ns, cnt, accessCnt) && IsEntry(ns, p) && e.key == KeyAt(ns, p)
    ensures ValidClimb(ns, Cell(p, 0))
    ensures var n1 := Climb(ns, Cell(p, 0), V(ns, Cell(p, 0)), accessCnt + 1);
            && p in n1 && Good(Replaced(n1, p, e), cnt, accessCnt + 1)
            && Model(Replaced(n1, p, e)) == Model(ns)[e.key := Slot(e, accessCnt + 1)]
  {
    hide Climb, Model, Shape, AllOkBut, ValidClimb, Fair;
    RestampOutcome(ns, p, cnt, accessCnt);
    var n1 := Climb(ns, Cell(p, 0), V(ns, Cell(p, 0)), accessCnt + 1);
    ReplaceModel(n1, p, e);
    ModelAt(n1, p);
    ModelAt(ns, p);
    SizeOfUpdate(Model(ns), e.key, Slot(e, accessCnt + 1));
    StampedFair(Model(ns), e.key, e, accessCnt, accessCnt + 1);
    assert Model(Replaced(n1, p, e)) == Model(ns)[e.key := Slot(e, accessCnt + 1)];
  }

  lemma PutNewOutcome(ns: Nodes, q: Path, e: Chunk, cnt: nat, accessCnt: nat)
    requires Good(ns, cnt, accessCnt) && FreeFor(ns, q, e.key)
    ensures e.key !in Model(ns) && Shape(AddLeaf(ns, q, e)) && ValidClimb(AddLeaf(ns, q, e), Cell(q, 0))
    ensures V(AddLeaf(ns, q, e), Cell(q, 0)) == 0
    ensures var ns' := Climb(AddLeaf(ns, q, e), Cell(q, 0), 0, accessCnt + 1);
            Good(ns', cnt + 1, accessCnt + 1) && Model(ns') == Model(ns)[e.key := Slot(e, accessCnt + 1)]
  {
    hide Climb, Model, Shape, AllOkBut, ValidClimb, Fair, FreeFor, AddLeaf, V;
    FairBounds(ns, accessCnt);
    PutNewModel(ns, q, e, accessCnt + 1);
    SizeOfUpdate(Model(ns), e.key, Slot(e, accessCnt + 1));
    StampedFair(Model(ns), e.key, e, accessCnt, accessCnt + 1);
  }

  /** Where the new key goes after one round of the split loop. */
  lemma SplitNext(ns: Nodes, q: Path, k: Key)
    requires Shape(ns) && IsEntry(ns, q) && q != [] && |ns[q].access| > 0
    requires |k| == KEY_SIZE && OnPath(k, q) && KeyAt(ns, q) != k
    ensures |q| < KEY_LEVELS
    ensures var next, ns' := q + [Digit(k, |q|)], SplitNode(ns, q);
            && next != [] && OnPath(k, next)
            && (next in ns' ==> IsEntry(ns', next) && KeyAt(ns', next) == KeyAt(ns, q))
            && (next !in ns' ==> FreeFor(ns', next, k))
  {
    assert NodeOk(ns, q);
    hide Digit;
    SplitEnds(k, KeyAt(ns, q), q);
    OnPathExtend(k, q);
    var d := Digit(k, |q|);
    EntryIsLeaf(ns, q, d);
    assert Parent(q + [d]) == q;
  }

  function Taking(e: Chunk, o: Chunk): Chunk {
    Chunk(e.key,
          if e.sdata.None? then o.sdata else e.sdata,
          if e.sdata.None? then o.size else e.size,
          if e.req.None? then o.req else e.req,
          o.c)
  }

  lemma GoodFacts(ns: Nodes, cnt: nat, accessCnt: nat)
    requires Good(ns, cnt, accessCnt)
    ensures cnt == |Model(ns)| && Fair(Model(ns), accessCnt)
  {
  }

  lemma NoVictim(m: Cache)
    ensures VictimOk(m, false, None) && WithoutVictim(m, None) == m
  {
  }

  /** The cache stays within its capacity as long as every entry has data. */
  lemma PutFits(m0: Cache, cnt: nat, cap: nat, victim: Option<Key>, m1: Cache, e: Chunk, stored: Chunk,
                acc: nat, a: nat)
    requires cap > 0 && cnt == |m0| && VictimOk(m0, cap <= cnt, victim) && m1 == WithoutVictim(m0, victim)
    requires stored == Merge(e, m1) && Fair(m0, acc)
    ensures e.sdata.Some? && AllData(m0) && cnt <= cap ==>
              var m2 := m1[e.key := Slot(stored, a)]; AllData(m2) && |m2| <= cap
  {
    SizeOfUpdate(m1, e.key, Slot(stored, a));
    if AllData(m0) && cnt == cap {
      assert m0.Keys != {};
      var k :| k in m0.Keys;
      assert m0[k].stamp != 0;
      assert SomeStamp(m0);
      EvictedFair(m0, victim.value, acc);
    }
  }

  lemma EmptyTree(ns: Nodes)
    requires ns == map[[] := Node(None, seq(ROOT_WIDTH - 1, _ => 0))]
    ensures Shape(ns) && AllOk(ns) && Model(ns) == map[]
  {
    assert NodeOk(ns, []);
    forall d: Cell
      ensures V(ns, d) == 0
    {
    }
    assert StoredKeys(ns) == {};
  }

  ghost function VictimOf(ns: Nodes, leaf: Path): Option<Key> {
    if V(ns, ROOT) != 0 && IsEntry(ns, leaf) then Some(KeyAt(ns, leaf)) else None
  }

  /** Everything removeOldest does to the map, whether or not a stamp is left. */
  lemma RemovalOutcome(ns: Nodes, cnt: nat, accessCnt: nat)
    requires Good(ns, cnt, accessCnt)
    ensures Sized(ns) && Shape(ns)
    ensures var r := Remove(ns, ROOT, V(ns, ROOT));
            && (r.Panicked? ==> !SomeStamp(Model(ns)))
            && (r.Removed? ==>
                 var victim := VictimOf(ns, r.leaf); var gone := r.leaf in r.ns && r.ns[r.leaf].entry.None?;
                 && r.leaf in r.ns && (gone ==> cnt > 0)
                 && VictimOk(Model(ns), true, victim)
                 && Model(r.ns) == WithoutVictim(Model(ns), victim)
                 && (r.ns == ns <==> victim.None?)
                 && Good(r.ns, if gone then cnt - 1 else cnt, accessCnt))
  {
    ShapeSized(ns);
    StampAtRoot(ns);
    hide Remove, Model;
    if V(ns, ROOT) != 0 {
      StampedOutcome(ns, accessCnt);
    } else {
      RootZeroMeansNoStamp(ns);
      FairPending(ns, accessCnt);
      RemoveWithoutStamp(ns, ROOT);
    }
  }

  lemma StampedOutcome(ns: Nodes, accessCnt: nat)
    requires Shape(ns) && Sized(ns) && AllOk(ns) && Fair(Model(ns), accessCnt) && V(ns, ROOT) != 0
    ensures var r := Remove(ns, ROOT, V(ns, ROOT)); var m := Model(ns);
            && r.Removed? && IsEntry(ns, r.leaf) && r.leaf in r.ns
            && IsOldest(m, KeyAt(ns, r.leaf)) && r.ns != ns
            && Shape(r.ns) && AllOk(r.ns)
            && Model(r.ns) == Evicted(m, KeyAt(ns, r.leaf)) && Fair(Model(r.ns), accessCnt)
            && (r.ns[r.leaf].entry.None? <==> m[KeyAt(ns, r.leaf)].chunk.sdata.Some?)
            && |Model(r.ns)| == if r.ns[r.leaf].entry.None? then |m| - 1 else |m|
  {
    RemoveOk(ns, ROOT, V(ns, ROOT));
    RemoveEvictsOldest(ns);
    var r := Remove(ns, ROOT, V(ns, ROOT));
    hide Remove, Model, Shape, AllOkBut, Fair;
    ModelAt(ns, r.leaf);
    EvictedFair(Model(ns), KeyAt(ns, r.leaf), accessCnt);
  }

  lemma BottomCell(c: Cell, pidx: nat)
    requires Width(c.path) / 2 - 1 <= c.i < Width(c.path) - 1
    requires pidx == c.i * 2 + 2 - Width(c.path)
    ensures Left(c) == Cell(c.path + [pidx], 0) && Right(c) == Cell(c.path + [pidx + 1], 0)
    ensures Left(c) != Right(c)
  {
    assert (c.path + [pidx])[|c.path|] != (c.path + [pidx + 1])[|c.path|];
  }

  /** What a resident chunk hands over to the chunk that replaces it. */
  function Merge(e: Chunk, m: Cache): Chunk {
    if e.key in m then Taking(e, m[e.key].chunk) else e
  }

  /** What the entry in the cache is made of when the map m is the one it is put
      into: the data that is put wins, and otherwise resident data and its size
      survive; so does a resident request unless the entry brings its own; the
      channel of a resident entry always stays. */
  ghost predicate HandsOver(m: Cache, e: Chunk, stored: Chunk) {
    && stored.key == e.key
    && (e.sdata.Some? ==> stored.sdata == e.sdata && stored.size == e.size)
    && (e.req.Some? ==> stored.req == e.req)
    && (e.key !in m ==> stored.sdata == e.sdata && stored.size == e.size && stored.req == e.req && stored.c == e.c)
    && (e.key in m ==>
          var o := m[e.key].chunk;
          && stored.c == o.c
          && (e.sdata.None? ==> stored.sdata == o.sdata && stored.size == o.size)
          && (e.req.None? ==> stored.req == o.req))
  }

  lemma MergeHandsOver(e: Chunk, m: Cache)
    ensures HandsOver(m, e, Merge(e, m))
  {
  }

  /** A Put leaves the data of a key readable, unless the key is the one that had
      to go and the entry brings no data for it. */
  ghost predicate DataKept(m0: Cache, m: Cache, victim: Option<Key>, e: Chunk) {
    forall k :: k in m0 && m0[k].chunk.sdata.Some? ==>
      ((k in m && m[k].chunk.sdata.Some?) <==> (victim != Some(k) || (k == e.key && e.sdata.Some?)))
  }

  /** It drops no request of a reader that still waits, and any other only with
      the entry that had to go. */
  ghost predicate RequestsKept(m0: Cache, m: Cache, victim: Option<Key>, e: Chunk) {
    forall k :: k in m0 && m0[k].chunk.req.Some? ==>
      ((k in m && m[k].chunk.req.Some?) <==>
         (victim != Some(k) || m0[k].chunk.sdata.None? || (k == e.key && e.req.Some?)))
  }

  lemma PutKeeps(m0: Cache, victim: Option<Key>, e: Chunk, stored: Chunk, a: nat)
    requires HandsOver(WithoutVictim(m0, victim), e, stored)
    ensures var m := WithoutVictim(m0, victim)[e.key := Slot(stored, a)];
            DataKept(m0, m, victim, e) && RequestsKept(m0, m, victim, e)
  {
  }

  /** The key that had to go, if any: the oldest one when the cache is full. */
  ghost predicate VictimOk(m: Cache, full: bool, victim: Option<Key>) {
    if full && SomeStamp(m) then victim.Some? && IsOldest(m, victim.value) else victim.None?
  }

  ghost function WithoutVictim(m: Cache, victim: Option<Key>): Cache
  {
    if victim.Some? && victim.value in m then Evicted(m, victim.value) else m
  }

  ghost predicate AllData(m: Cache) {
    forall k :: k in m ==> m[k].chunk.sdata.Some?
  }

  function Pending(m: Cache): set<Key> {
    set k | k in m && m[k].chunk.sdata.None?
  }

  ghost function Stamped(m: Cache): set<Key> {
    set k | k in m && m[k].stamp != 0
  }

  /** What the loop of setCapacity keeps: pending requests stay, an entry that
      stays is unchanged or has lost its stamp, and whatever left was older than
      everything that still has a stamp. */
  ghost predicate Shrunk(m0: Cache, m: Cache) {
    && m.Keys <= m0.Keys && Pending(m) == Pending(m0)
    && (forall k :: k in m ==> m[k].chunk == m0[k].chunk && (m[k].stamp == m0[k].stamp || m[k].stamp == 0))
    && (forall j, k :: k in m0 && k !in m && j in m && m[j].stamp != 0 ==> m0[k].stamp < m[j].stamp)
  }

  lemma ShrinkStep(m0: Cache, m: Cache, k: Key, accessCnt: nat)
    requires Shrunk(m0, m) && Fair(m, accessCnt) && IsOldest(m, k)
    ensures Shrunk(m0, Evicted(m, k))
    ensures Stamped(Evicted(m, k)) < Stamped(m)
  {
    var m' := Evicted(m, k);
    assert k in Stamped(m) && k !in Stamped(m');
    forall j | j in Stamped(m')
      ensures j in Stamped(m)
    {
    }
    forall j, i | i in m0 && i !in m' && j in m' && m'[j].stamp != 0
      ensures m0[i].stamp < m'[j].stamp
    {
      assert m[k].stamp == m0[k].stamp;
    }
    assert Pending(m') == Pending(m);
  }

  lemma NoStampAllPending(m: Cache, accessCnt: nat)
    requires Fair(m, accessCnt) && !SomeStamp(m)
    ensures |Pending(m)| == |m|
  {
    assert Pending(m) == m.Keys;
  }

  lemma PendingFits(m0: Cache, m: Cache)
    requires Shrunk(m0, m)
    ensures |Pending(m0)| <= |m|
  {
    SubsetSize(Pending(m), m.Keys);
  }

  lemma {:induction false} SubsetSize<T>(a: set<T>, b: set<T>)
    requires a <= b
    ensures |a| <= |b|
  {
    if a != {} {
      var x :| x in a;
      SubsetSize(a - {x}, b - {x});
    }
  }
}
