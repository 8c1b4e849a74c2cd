/** What the path map determines about the trie. */
module ManifestTheory {
  import opened Bytes
  import opened Manifest

  ghost predicate Stored(t: Trie, q: Path) {
    Lookup(t, q).Some?
  }

  // ----- branch nodes are the points where stored paths part -----

  lemma {:induction false} CplShift(pre: Path, a: Path, b: Path)
    ensures Cpl(pre + a, pre + b) == |pre| + Cpl(a, b)
  {
    if pre == [] {
      assert pre + a == a && pre + b == b;
    } else {
      assert (pre + a)[1..] == pre[1..] + a && (pre + b)[1..] == pre[1..] + b;
      CplShift(pre[1..], a, b);
    }
  }

  lemma DifferentSlots(a: Path, b: Path)
    requires Slot(a) != Slot(b)
    ensures Cpl(a, b) == 0
  {
  }

  /** Two stored paths that part exactly at a branch node. */
  lemma {:induction false} BranchParts(t: Trie, p: Path) returns (a: Path, b: Path)
    requires Wf(t) && BranchAt(t, p)
    ensures Stored(t, a) && Stored(t, b) && a != b && p <= a && p <= b && Cpl(a, b) == |p|
    decreases t
  {
    var e := t.entries[Slot(p)].value;
    WfSlot(t, Slot(p));
    if e.path == p {
      a, b := TwoStored(e.sub);
      CplShift(p, a, b);
      assert (p + a)[|p|..] == a && (p + b)[|p|..] == b;
      a, b := p + a, p + b;
    } else {
      var p' := p[|e.path|..];
      assert p == e.path + p';
      a, b := BranchParts(e.sub, p');
      CplShift(e.path, a, b);
      assert (e.path + a)[|e.path|..] == a && (e.path + b)[|e.path|..] == b;
      a, b := e.path + a, e.path + b;
    }
  }

  lemma TwoStored(t: Trie) returns (a: Path, b: Path)
    requires Wf(t) && Count(t.entries) >= 2
    ensures Stored(t, a) && Stored(t, b) && a != b && Cpl(a, b) == 0
  {
    a := TrieStores(t, SLOTS);
    b := TrieStores(t, Slot(a));
    DifferentSlots(a, b);
  }

  /** And conversely: where two stored paths part there is a branch node. */
  lemma {:induction false} PartsBranch(t: Trie, a: Path, b: Path)
    requires Wf(t) && Stored(t, a) && Stored(t, b) && a != b && Cpl(a, b) > 0
    ensures BranchAt(t, a[..Cpl(a, b)])
    decreases t
  {
    hide Wf, WfEdge, Count, Lookup;
    var n := Cpl(a, b);
    SharedEdge(t, a, b);
    var e := t.entries[Slot(a)].value;
    var m := |e.path|;
    var a', b' := a[m..], b[m..];
    assert a == e.path + a' && b == e.path + b';
    CplShift(e.path, a', b');
    assert e.path == a[..m];
    if Cpl(a', b') > 0 {
      PartsBranch(e.sub, a', b');
      assert a[..n][m..] == a'[..n - m];
    }
  }

  /** Two stored paths with the same first byte go through the same branch. */
  lemma SharedEdge(t: Trie, a: Path, b: Path)
    requires Wf(t) && Stored(t, a) && Stored(t, b) && a != b && Cpl(a, b) > 0
    ensures a != [] && |t.entries| == SLOTS && t.entries[Slot(a)].Some?
    ensures var e := t.entries[Slot(a)].value;
            && e.Branch? && e.path != [] && e.path <= a && e.path <= b
            && Wf(e.sub) && Stored(e.sub, a[|e.path|..]) && Stored(e.sub, b[|e.path|..])
  {
    assert Slot(a) == Slot(b);
    var e := t.entries[Slot(a)].value;
    assert Lookup(t, a) == LookupEdge(e, a) && Lookup(t, b) == LookupEdge(e, b);
    WfSlot(t, Slot(a));
    hide Wf, Lookup, Count, Slot;
  }

  /** A branch node sits at p exactly when two stored paths part at p, so a
      caller can tell from the path map whether add and delete are safe. */
  lemma BranchAtIff(t: Trie, p: Path)
    requires Wf(t)
    ensures BranchAt(t, p) <==>
              p != [] && exists a, b :: Stored(t, a) && Stored(t, b) && a != b && p <= a && p <= b && Cpl(a, b) == |p|
  {
    if BranchAt(t, p) {
      var a, b := BranchParts(t, p);
    }
    if p != [] && exists a, b :: Stored(t, a) && Stored(t, b) && a != b && p <= a && p <= b && Cpl(a, b) == |p| {
      var a, b :| Stored(t, a) && Stored(t, b) && a != b && p <= a && p <= b && Cpl(a, b) == |p|;
      PartsBranch(t, a, b);
      assert a[..|p|] == p;
    }
  }

  /** Add does what it should on the whole path map if and only if no two stored
      paths part at p. */
  lemma AddCorrectIff(t: Trie, p: Path, c: Content)
    requires Wf(t)
    ensures (forall q :: Lookup(Add(t, p, c), q) == if q == p then Some(c) else Lookup(t, q)) <==> !BranchAt(t, p)
  {
    hide Add, BranchAt, Wf;
    if BranchAt(t, p) {
      var q := AddLosesPath(t, p, c);
    } else {
      forall q
        ensures Lookup(Add(t, p, c), q) == if q == p then Some(c) else Lookup(t, q)
      {
        AddLookup(t, p, c, q);
      }
    }
  }

  lemma DeleteCorrectIff(t: Trie, p: Path)
    requires Wf(t)
    ensures (forall q :: Lookup(Delete(t, p), q) == if q == p then None else Lookup(t, q)) <==> !BranchAt(t, p)
  {
    hide Delete, BranchAt, Wf;
    if BranchAt(t, p) {
      var q := DeleteLosesPath(t, p);
    } else {
      forall q
        ensures Lookup(Delete(t, p), q) == if q == p then None else Lookup(t, q)
      {
        DeleteLookup(t, p, q);
      }
    }
  }

  // ----- the trie is canonical -----

  ghost predicate SameMap(t: Trie, u: Trie) {
    forall q :: Lookup(t, q) == Lookup(u, q)
  }

  ghost predicate SameEdgeMap(e: Edge, f: Edge) {
    forall q :: LookupEdge(e, q) == LookupEdge(f, q)
  }

  /** Two well-formed tries for the same path map are the same trie. */
  lemma {:induction false} Canonical(t: Trie, u: Trie)
    requires Wf(t) && Wf(u) && SameMap(t, u)
    ensures t == u
    decreases t
  {
    forall b | 0 <= b < SLOTS
      ensures t.entries[b] == u.entries[b]
    {
      SlotsAgree(t, u, b);
      if t.entries[b].Some? {
        WfSlot(t, b);
        WfSlot(u, b);
        CanonicalEdge(t.entries[b].value, u.entries[b].value, b);
      }
    }
  }

  lemma SlotsAgree(t: Trie, u: Trie, b: nat)
    requires Wf(t) && Wf(u) && SameMap(t, u) && b < SLOTS
    ensures t.entries[b].Some? <==> u.entries[b].Some?
    ensures t.entries[b].Some? ==> SameEdgeMap(t.entries[b].value, u.entries[b].value)
  {
    if t.entries[b].Some? {
      WfSlot(t, b);
      var q := EdgeStores(t.entries[b].value, b);
      assert Lookup(t, q) == Lookup(u, q);
    }
    if u.entries[b].Some? {
      WfSlot(u, b);
      var q := EdgeStores(u.entries[b].value, b);
      assert Lookup(t, q) == Lookup(u, q);
    }
    if t.entries[b].Some? {
      var e, f := t.entries[b].value, u.entries[b].value;
      hide LookupEdge;
      forall q
        ensures LookupEdge(e, q) == LookupEdge(f, q)
      {
        EdgeNeedsPath(e, q);
        EdgeNeedsPath(f, q);
        assert Lookup(t, q) == Lookup(u, q);
      }
    }
  }

  /** Two paths of a branch part right after its own path. */
  lemma BranchStores(e: Edge) returns (a: Path, b: Path)
    requires e.Branch? && WfEdge(e, Slot(e.path))
    ensures LookupEdge(e, a).Some? && LookupEdge(e, b).Some? && a != b && Cpl(a, b) == |e.path|
  {
    a, b := TwoStored(e.sub);
    CplShift(e.path, a, b);
    assert (e.path + a)[|e.path|..] == a && (e.path + b)[|e.path|..] == b;
    a, b := e.path + a, e.path + b;
  }

  lemma SharedPrefixCpl(p: Path, a: Path, b: Path)
    requires p <= a && p <= b
    ensures Cpl(a, b) >= |p|
  {
    assert a == p + a[|p|..] && b == p + b[|p|..];
    CplShift(p, a[|p|..], b[|p|..]);
  }

  lemma LongerPath(e: Edge, f: Edge) returns (a: Path)
    requires e.Branch? && WfEdge(e, Slot(e.path)) && WfEdge(f, Slot(e.path)) && SameEdgeMap(e, f)
    ensures f.Branch? && |f.path| <= |e.path|
    ensures e.path <= a && f.path <= a
  {
    var b;
    a, b := BranchStores(e);
    assert LookupEdge(f, a).Some? && LookupEdge(f, b).Some?;
    EdgeNeedsPath(f, a);
    EdgeNeedsPath(f, b);
    EdgeNeedsPath(e, a);
    SharedPrefixCpl(f.path, a, b);
  }

  lemma {:induction false} CanonicalEdge(e: Edge, f: Edge, b: nat)
    requires WfEdge(e, b) && WfEdge(f, b) && SameEdgeMap(e, f)
    ensures e == f
    decreases e
  {
    if e.Leaf? && f.Leaf? {
      assert LookupEdge(e, e.path) == LookupEdge(f, e.path);
    } else if e.Branch? {
      var a := LongerPath(e, f);
      var a' := LongerPath(f, e);
      assert e.path == a[..|e.path|] == f.path;
      forall q
        ensures Lookup(e.sub, q) == Lookup(f.sub, q)
      {
        assert LookupEdge(e, e.path + q) == LookupEdge(f, e.path + q);
        assert (e.path + q)[|e.path|..] == q;
      }
      Canonical(e.sub, f.sub);
    } else {
      var a := LongerPath(f, e);
    }
  }
}
