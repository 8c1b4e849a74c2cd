/** The manifest trie: a compressed radix tree from paths to entries. A node has
    a slot for every possible first byte and slot 256 for the empty path. */
module Manifest {
  import opened Bytes

  type Path = seq<Byte>

  /** What a path leads to. */
  datatype Content = Content(hash: Key, contentType: nat, status: int)

  datatype Trie = Trie(entries: seq<Option<Edge>>)

  /** A user entry, or an entry of manifest type that leads to a subtrie. */
  datatype Edge =
    | Leaf(path: Path, content: Content)
    | Branch(path: Path, sub: Trie)

  const SLOTS: nat := 257

  function NoEntries(n: nat): (es: seq<Option<Edge>>)
    ensures |es| == n && forall i :: 0 <= i < n ==> es[i] == None
  {
    if n == 0 then [] else NoEntries(n - 1) + [None]
  }

  function Empty(): Trie {
    Trie(NoEntries(SLOTS))
  }

  function Slot(p: Path): (b: nat)
    ensures b < SLOTS
  {
    if p == [] then 256 else p[0]
  }

  /** Length of the common prefix. */
  function Cpl(a: Path, b: Path): (n: nat)
    ensures n <= |a| && n <= |b|
  {
    if a == [] || b == [] || a[0] != b[0] then 0 else 1 + Cpl(a[1..], b[1..])
  }

  /** Number of occupied slots. */
  function Count(es: seq<Option<Edge>>): nat {
    if es == [] then 0 else (if es[0].Some? then 1 else 0) + Count(es[1..])
  }

  /** Every edge sits in the slot of its first byte, and every subtrie is there
      because at least two paths part in it. */
  predicate Wf(t: Trie) {
    && |t.entries| == SLOTS
    && forall b :: 0 <= b < SLOTS && t.entries[b].Some? ==> WfEdge(t.entries[b].value, b)
  }

  predicate WfEdge(e: Edge, b: nat) {
    && Slot(e.path) == b
    && (e.Branch? ==> e.path != [] && Wf(e.sub) && Count(e.sub.entries) >= 2)
  }

  /** The path map the trie stands for. */
  function Lookup(t: Trie, p: Path): Option<Content>
    decreases t
  {
    if Slot(p) >= |t.entries| || t.entries[Slot(p)].None? then None
    else LookupEdge(t.entries[Slot(p)].value, p)
  }

  function LookupEdge(e: Edge, p: Path): Option<Content>
    decreases e
  {
    match e
    case Leaf(q, c) => if q == p then Some(c) else None
    case Branch(q, sub) => if q <= p then Lookup(sub, p[|q|..]) else None
  }

  // ----- the operations -----

  function At(t: Trie, b: nat, e: Option<Edge>): Trie
    requires |t.entries| == SLOTS && b < SLOTS
  {
    Trie(t.entries[b := e])
  }

  /** addEntry for a user entry. */
  function Add(t: Trie, p: Path, c: Content): (t': Trie)
    requires Wf(t)
    ensures |t'.entries| == SLOTS
    decreases t
  {
    var b := Slot(p);
    if t.entries[b].None? || t.entries[b].value.path == p then At(t, b, Some(Leaf(p, c)))
    else At(t, b, Some(AddBelow(t.entries[b].value, p, c)))
  }

  /** The old edge and the new path share a first byte: descend, or split the edge. */
  function AddBelow(e: Edge, p: Path, c: Content): Edge
    requires WfEdge(e, Slot(p))
    decreases e
  {
    var n := Cpl(p, e.path);
    if e.Branch? && n == |e.path| then Branch(e.path, Add(e.sub, p[n..], c))
    else Branch(p[..n], Fork(Leaf(p[n..], c), WithPath(e, e.path[n..])))
  }

  function WithPath(e: Edge, p: Path): Edge {
    match e case Leaf(_, c) => Leaf(p, c) case Branch(_, sub) => Branch(p, sub)
  }

  /** A new subtrie with two entries. */
  function Fork(e: Edge, f: Edge): Trie {
    At(At(Empty(), Slot(e.path), Some(e)), Slot(f.path), Some(f))
  }

  /** The last occupied slot. */
  function Last(es: seq<Option<Edge>>): Option<Edge> {
    if es == [] then None
    else if es[|es| - 1].Some? then es[|es| - 1]
    else Last(es[..|es| - 1])
  }

  /** deleteEntry */
  function Delete(t: Trie, p: Path): (t': Trie)
    requires Wf(t)
    ensures |t'.entries| == SLOTS
    decreases t
  {
    var b := Slot(p);
    if t.entries[b].None? then t
    else if t.entries[b].value.path == p then At(t, b, None)
    else At(t, b, DeleteBelow(t.entries[b].value, p))
  }

  function DeleteBelow(e: Edge, p: Path): Option<Edge>
    requires WfEdge(e, Slot(p))
    decreases e
  {
    if e.Branch? && e.path <= p then
      var sub := Delete(e.sub, p[|e.path|..]);
      if Count(sub.entries) >= 2 then Some(Branch(e.path, sub))
      else
        var last := Last(sub.entries);
        if last.Some? then Some(WithPath(last.value, e.path + last.value.path)) else None
    else Some(e)
  }

  /** A branch node sits exactly at this path: here add and delete of the source
      replace or drop everything below it. */
  predicate BranchAt(t: Trie, p: Path)
    decreases t
  {
    && p != [] && Slot(p) < |t.entries| && t.entries[Slot(p)].Some?
    && BranchAtEdge(t.entries[Slot(p)].value, p)
  }

  predicate BranchAtEdge(e: Edge, p: Path)
    decreases e
  {
    e.Branch? && e.path <= p && (e.path == p || BranchAt(e.sub, p[|e.path|..]))
  }

  // ----- common prefixes -----

  lemma {:induction false} CplPrefix(a: Path, b: Path)
    ensures var n := Cpl(a, b);
            && a[..n] == b[..n]
            && (n < |a| && n < |b| ==> a[n] != b[n])
  {
    if a != [] && b != [] && a[0] == b[0] {
      CplPrefix(a[1..], b[1..]);
      var n := Cpl(a, b);
      assert a[..n] == [a[0]] + a[1..][..n - 1] && b[..n] == [b[0]] + b[1..][..n - 1];
    }
  }

  /** Different paths with a common prefix of length n go to different slots after it. */
  lemma SlotsPart(a: Path, b: Path)
    requires a != b
    ensures var n := Cpl(a, b); Slot(a[n..]) != Slot(b[n..])
    ensures var n := Cpl(a, b); a[..n] == b[..n]
  {
    CplPrefix(a, b);
    assert a == a[..|a|] && b == b[..|b|];
  }

  lemma SameSlotShares(a: Path, b: Path)
    requires Slot(a) == Slot(b) && a != b
    ensures Cpl(a, b) > 0
  {
  }

  // ----- counting slots -----

  lemma {:induction false} CountUpdate(es: seq<Option<Edge>>, b: nat, e: Option<Edge>)
    requires b < |es|
    ensures Count(es[b := e]) == Count(es) - (if es[b].Some? then 1 else 0) + (if e.Some? then 1 else 0)
  {
    if b == 0 {
      assert es[0 := e][1..] == es[1..];
    } else {
      CountUpdate(es[1..], b - 1, e);
      assert es[b := e][1..] == es[1..][b - 1 := e];
    }
  }

  lemma {:induction false} CountNone(es: seq<Option<Edge>>)
    requires forall i :: 0 <= i < |es| ==> es[i].None?
    ensures Count(es) == 0
  {
    if es != [] {
      CountNone(es[1..]);
    }
  }

  /** An occupied slot, other than the given one if there are two. */
  lemma {:induction false} OccupiedSlot(es: seq<Option<Edge>>, but: int) returns (i: nat)
    requires Count(es) >= 2 || (Count(es) == 1 && (0 <= but < |es| ==> es[but].None?))
    ensures i < |es| && es[i].Some? && i != but
  {
    if es[0].Some? && but != 0 {
      i := 0;
    } else {
      i := OccupiedSlot(es[1..], but - 1);
      i := i + 1;
    }
  }

  /** With one occupied slot, Last is its entry and every other slot is empty. */
  lemma {:induction false} OnlySlot(es: seq<Option<Edge>>) returns (i: nat)
    requires Count(es) == 1
    ensures i < |es| && es[i].Some? && Last(es) == es[i]
    ensures forall j :: 0 <= j < |es| && j != i ==> es[j].None?
    decreases |es|
  {
    var n := |es| - 1;
    CountInit(es);
    if es[n].Some? {
      i := n;
      NoneOccupied(es[..n]);
    } else {
      i := OnlySlot(es[..n]);
      assert forall j :: 0 <= j < n ==> es[..n][j] == es[j];
    }
  }

  lemma {:induction false} CountInit(es: seq<Option<Edge>>)
    requires es != []
    ensures Count(es) == Count(es[..|es| - 1]) + if es[|es| - 1].Some? then 1 else 0
  {
    if |es| > 1 {
      CountInit(es[1..]);
      assert es[1..][..|es| - 2] == es[..|es| - 1][1..];
    }
  }

  lemma {:induction false} NoneOccupied(es: seq<Option<Edge>>)
    requires Count(es) == 0
    ensures forall i :: 0 <= i < |es| ==> es[i].None?
  {
    if es != [] {
      NoneOccupied(es[1..]);
      assert forall i :: 1 <= i < |es| ==> es[i] == es[1..][i - 1];
    }
  }

  // ----- moving an edge along its path -----

  /** Cutting the same prefix off an edge and off a query changes nothing. */
  lemma StripPrefix(e: Edge, pre: Path, q: Path)
    ensures LookupEdge(WithPath(e, pre + e.path), pre + q) == LookupEdge(e, q)
  {
    match e
    case Leaf(r, c) =>
      assert (pre + r == pre + q) <==> r == q by {
        assert (pre + r)[|pre|..] == r && (pre + q)[|pre|..] == q;
      }
    case Branch(r, sub) =>
      assert (pre + r <= pre + q) <==> r <= q by {
        if pre + r <= pre + q {
          assert r == (pre + r)[|pre|..] && q == (pre + q)[|pre|..];
          assert r <= q;
        }
      }
      if r <= q {
        assert (pre + q)[|pre + r|..] == q[|r|..];
      }
  }

  /** An edge answers only for queries that its path leads into. */
  lemma EdgeNeedsPath(e: Edge, q: Path)
    ensures LookupEdge(e, q).Some? ==> e.path <= q
    ensures LookupEdge(e, q).Some? && WfEdge(e, Slot(e.path)) ==> Slot(q) == Slot(e.path)
  {
  }

  // ----- add -----

  lemma ForkWf(e: Edge, f: Edge)
    requires Slot(e.path) != Slot(f.path) && WfEdge(e, Slot(e.path)) && WfEdge(f, Slot(f.path))
    ensures Wf(Fork(e, f)) && Count(Fork(e, f).entries) == 2
  {
    var t0 := Empty();
    CountNone(t0.entries);
    CountUpdate(t0.entries, Slot(e.path), Some(e));
    CountUpdate(t0.entries[Slot(e.path) := Some(e)], Slot(f.path), Some(f));
  }

  lemma ForkLookup(e: Edge, f: Edge, q: Path)
    requires Slot(e.path) != Slot(f.path)
    ensures Lookup(Fork(e, f), q) ==
            if Slot(q) == Slot(e.path) then LookupEdge(e, q)
            else if Slot(q) == Slot(f.path) then LookupEdge(f, q) else None
  {
    hide LookupEdge;
  }

  lemma SuffixEdgeWf(e: Edge, n: nat)
    requires WfEdge(e, Slot(e.path)) && n <= |e.path| && (e.Branch? ==> n < |e.path|)
    ensures WfEdge(WithPath(e, e.path[n..]), Slot(e.path[n..]))
  {
  }

  /** Adding keeps the trie well formed. */
  lemma {:induction false} AddWf(t: Trie, p: Path, c: Content)
    requires Wf(t)
    ensures Wf(Add(t, p, c)) && Count(Add(t, p, c).entries) >= Count(t.entries)
    decreases t
  {
    hide Count, AddBelow;
    var b := Slot(p);
    CountUpdate(t.entries, b, Add(t, p, c).entries[b]);
    if t.entries[b].Some? && t.entries[b].value.path != p {
      AddBelowWf(t.entries[b].value, p, c);
    }
  }

  lemma {:induction false} AddBelowWf(e: Edge, p: Path, c: Content)
    requires WfEdge(e, Slot(p)) && e.path != p
    ensures WfEdge(AddBelow(e, p, c), Slot(p))
    decreases e
  {
    hide Count, Wf;
    var n := Cpl(p, e.path);
    SlotsPart(p, e.path);
    SameSlotShares(p, e.path);
    if e.Branch? && n == |e.path| {
      AddWf(e.sub, p[n..], c);
    } else {
      SuffixEdgeWf(e, n);
      ForkWf(Leaf(p[n..], c), WithPath(e, e.path[n..]));
    }
  }

  /** The exact effect of add on the path map, as long as no branch node sits at
      the path itself. */
  lemma {:induction false} AddLookup(t: Trie, p: Path, c: Content, q: Path)
    requires Wf(t) && !BranchAt(t, p)
    ensures Lookup(Add(t, p, c), q) == if q == p then Some(c) else Lookup(t, q)
    decreases t
  {
    hide Count, AddBelow, LookupEdge;
    var b := Slot(p);
    if t.entries[b].None? || t.entries[b].value.path == p {
      LeafLookup(p, c, q);
      if t.entries[b].Some? && q != p {
        OldLeafLookup(t.entries[b].value, p, q);
      }
    } else if Slot(q) == b {
      AddBelowLookup(t.entries[b].value, p, c, q);
    }
  }

  lemma LeafLookup(p: Path, c: Content, q: Path)
    ensures LookupEdge(Leaf(p, c), q) == if q == p then Some(c) else None
  {
  }

  lemma OldLeafLookup(e: Edge, p: Path, q: Path)
    requires e.path == p && WfEdge(e, Slot(p)) && (p != [] ==> !BranchAtEdge(e, p)) && q != p
    ensures LookupEdge(e, q) == None
  {
  }

  lemma {:induction false} AddBelowLookup(e: Edge, p: Path, c: Content, q: Path)
    requires WfEdge(e, Slot(p)) && e.path != p && !BranchAtEdge(e, p)
    ensures LookupEdge(AddBelow(e, p, c), q) == if q == p then Some(c) else LookupEdge(e, q)
    decreases e
  {
    var n := Cpl(p, e.path);
    SlotsPart(p, e.path);
    SameSlotShares(p, e.path);
    if e.Branch? && n == |e.path| {
      assert e.path <= p;
      NotBranchBelow(e, p);
      if e.path <= q {
        AddLookup(e.sub, p[n..], c, q[n..]);
        TailsAgree(e.path, p, q);
      }
    } else {
      SplitLookup(e, p, c, q);
    }
  }

  lemma NotBranchBelow(e: Edge, p: Path)
    requires e.Branch? && e.path <= p && e.path != p && !BranchAtEdge(e, p)
    ensures !BranchAt(e.sub, p[|e.path|..])
  {
  }

  lemma TailsAgree(pre: Path, p: Path, q: Path)
    requires pre <= p && pre <= q
    ensures p[|pre|..] == q[|pre|..] <==> p == q
  {
    assert p == pre + p[|pre|..] && q == pre + q[|pre|..];
  }

  lemma SplitLookup(e: Edge, p: Path, c: Content, q: Path)
    requires WfEdge(e, Slot(p)) && e.path != p
    requires var n := Cpl(p, e.path); !(e.Branch? && n == |e.path|)
    ensures var n := Cpl(p, e.path);
            LookupEdge(Branch(p[..n], Fork(Leaf(p[n..], c), WithPath(e, e.path[n..]))), q)
            == if q == p then Some(c) else LookupEdge(e, q)
  {
    var n := Cpl(p, e.path);
    SlotsPart(p, e.path);
    var pre, e' := p[..n], WithPath(e, e.path[n..]);
    assert e.path == pre + e'.path && p == pre + p[n..];
    EdgeNeedsPath(e, q);
    hide Fork, WfEdge;
    if pre <= q {
      var q' := q[n..];
      assert q == pre + q';
      ForkLookup(Leaf(p[n..], c), e', q');
      LeafLookup(p[n..], c, q');
      StripPrefix(e', pre, q');
      assert WithPath(e', pre + e'.path) == e;
      SuffixEdgeWf(e, n);
      EdgeNeedsPath(e', q');
      TailsAgree(pre, p, q);
    } else {
      assert p != q;
      NotExtended(pre, e.path, q);
    }
  }

  // ----- delete -----

  lemma {:induction false} DeleteWf(t: Trie, p: Path)
    requires Wf(t)
    ensures Wf(Delete(t, p)) && Count(Delete(t, p).entries) >= Count(t.entries) - 1
    decreases t
  {
    hide Count, DeleteBelow;
    var b := Slot(p);
    CountUpdate(t.entries, b, Delete(t, p).entries[b]);
    assert t.entries[b := t.entries[b]] == t.entries;
    if t.entries[b].Some? && t.entries[b].value.path != p {
      DeleteBelowWf(t.entries[b].value, p);
    }
  }

  lemma {:induction false} DeleteBelowWf(e: Edge, p: Path)
    requires WfEdge(e, Slot(p)) && e.path != p
    ensures DeleteBelow(e, p).Some? && WfEdge(DeleteBelow(e, p).value, Slot(p))
    decreases e
  {
    hide Count, Wf, Last;
    if e.Branch? && e.path <= p {
      var sub := Delete(e.sub, p[|e.path|..]);
      DeleteWf(e.sub, p[|e.path|..]);
      if Count(sub.entries) < 2 {
        var i := OnlySlot(sub.entries);
        WfSlot(sub, i);
        assert (e.path + sub.entries[i].value.path)[0] == e.path[0];
      }
    }
  }

  lemma WfSlot(t: Trie, b: nat)
    requires Wf(t) && b < SLOTS && t.entries[b].Some?
    ensures WfEdge(t.entries[b].value, b)
  {
  }

  lemma {:induction false} DeleteLookup(t: Trie, p: Path, q: Path)
    requires Wf(t) && !BranchAt(t, p)
    ensures Lookup(Delete(t, p), q) == if q == p then None else Lookup(t, q)
    decreases t
  {
    hide Count, DeleteBelow, LookupEdge;
    var b := Slot(p);
    if t.entries[b].Some? {
      if t.entries[b].value.path == p {
        if q != p {
          OldLeafLookup(t.entries[b].value, p, q);
        }
      } else if Slot(q) == b {
        DeleteBelowWf(t.entries[b].value, p);
        DeleteBelowLookup(t.entries[b].value, p, q);
      }
    }
  }

  lemma {:induction false} DeleteBelowLookup(e: Edge, p: Path, q: Path)
    requires WfEdge(e, Slot(p)) && e.path != p && !BranchAtEdge(e, p) && DeleteBelow(e, p).Some?
    ensures LookupEdge(DeleteBelow(e, p).value, q) == if q == p then None else LookupEdge(e, q)
    decreases e
  {
    hide Count, Last, Wf;
    if e.Branch? && e.path <= p {
      var p' := p[|e.path|..];
      var sub := Delete(e.sub, p');
      NotBranchBelow(e, p);
      DeleteWf(e.sub, p');
      if e.path <= q {
        DeleteLookup(e.sub, p', q[|e.path|..]);
        TailsAgree(e.path, p, q);
      }
      if Count(sub.entries) < 2 {
        CollapseLookup(e.path, sub, q);
      }
    } else {
      EdgeNeedsPath(e, p);
    }
  }

  /** Replacing a subtrie with a single entry by that entry. */
  lemma CollapseLookup(pre: Path, sub: Trie, q: Path)
    requires Wf(sub) && Count(sub.entries) == 1
    ensures Last(sub.entries).Some?
    ensures var last := Last(sub.entries).value;
            LookupEdge(WithPath(last, pre + last.path), q) == LookupEdge(Branch(pre, sub), q)
  {
    var i := OnlySlot(sub.entries);
    var last := sub.entries[i].value;
    WfSlot(sub, i);
    hide Count, Last, Wf;
    var moved := WithPath(last, pre + last.path);
    EdgeNeedsPath(moved, q);
    if pre <= q {
      var q' := q[|pre|..];
      assert q == pre + q';
      StripPrefix(last, pre, q');
      EdgeNeedsPath(last, q');
    } else {
      NotExtended(pre, moved.path, q);
    }
  }

  // ----- where add and delete go wrong -----

  /** Every edge of a well-formed trie leads to a stored path. */
  lemma {:induction false} EdgeStores(e: Edge, b: nat) returns (q: Path)
    requires WfEdge(e, b)
    ensures LookupEdge(e, q).Some? && e.path <= q && Slot(q) == b
    decreases e
  {
    if e.Leaf? {
      q := e.path;
    } else {
      var r := TrieStores(e.sub, 256);
      q := e.path + r;
      assert q[|e.path|..] == r;
    }
  }

  /** A path stored through a slot other than the given one. */
  lemma {:induction false} TrieStores(t: Trie, but: nat) returns (q: Path)
    requires Wf(t) && Count(t.entries) >= 2
    ensures Lookup(t, q).Some? && Slot(q) != but
    decreases t, 0
  {
    var i := OccupiedSlot(t.entries, but);
    WfSlot(t, i);
    hide Count, Wf, LookupEdge;
    q := EdgeStores(t.entries[i].value, i);
  }

  /** With a branch node at p, add loses a path that was stored below it. */
  lemma {:induction false} AddLosesPath(t: Trie, p: Path, c: Content) returns (q: Path)
    requires Wf(t) && BranchAt(t, p)
    ensures q != p && Lookup(t, q).Some? && Lookup(Add(t, p, c), q) == None
    decreases t
  {
    var e := t.entries[Slot(p)].value;
    if e.path == p {
      var r := TrieStores(e.sub, 256);
      q := p + r;
      assert q[|p|..] == r;
    } else {
      hide Count;
      var p' := p[|e.path|..];
      var r := AddLosesPath(e.sub, p', c);
      q := e.path + r;
      assert q[|e.path|..] == r && p == e.path + p';
      PrefixCpl(e.path, p);
    }
  }

  lemma {:induction false} PrefixCpl(a: Path, b: Path)
    requires a <= b
    ensures Cpl(b, a) == Cpl(a, b) == |a|
  {
    if a != [] {
      PrefixCpl(a[1..], b[1..]);
    }
  }

  lemma {:induction false} DeleteLosesPath(t: Trie, p: Path) returns (q: Path)
    requires Wf(t) && BranchAt(t, p)
    ensures q != p && Lookup(t, q).Some? && Lookup(Delete(t, p), q) == None
    decreases t
  {
    var e := t.entries[Slot(p)].value;
    if e.path == p {
      var r := TrieStores(e.sub, 256);
      q := p + r;
      assert q[|p|..] == r;
    } else {
      hide Count, Last;
      var p' := p[|e.path|..];
      var r := DeleteLosesPath(e.sub, p');
      q := e.path + r;
      assert q[|e.path|..] == r && p == e.path + p';
      var sub := Delete(e.sub, p');
      DeleteWf(e.sub, p');
      if Count(sub.entries) < 2 {
        CollapseLookup(e.path, sub, q);
      }
    }
  }

  // ----- the exact effect of add and delete -----

  lemma PrefixTails(pre: Path, p: Path, q: Path)
    requires pre <= p && pre <= q
    ensures p[|pre|..] <= q[|pre|..] <==> p <= q
  {
    assert p == pre + p[|pre|..] && q == pre + q[|pre|..];
    if p <= q {
      assert q[..|p|] == p;
      assert q[|pre|..][..|p| - |pre|] == q[|pre|..|p|] == p[|pre|..];
    }
  }

  /** Add stores p and keeps every other path, except that a branch node at p goes
      with all paths that extend p. */
  lemma AddExact(t: Trie, p: Path, c: Content, q: Path)
    requires Wf(t)
    ensures Lookup(Add(t, p, c), q) ==
            if q == p then Some(c) else if BranchAt(t, p) && p <= q then None else Lookup(t, q)
  {
    hide BranchAt, Lookup, Add, Wf;
    if BranchAt(t, p) {
      AddAtBranch(t, p, c, q);
    } else {
      AddLookup(t, p, c, q);
    }
  }

  lemma {:induction false} AddAtBranch(t: Trie, p: Path, c: Content, q: Path)
    requires Wf(t) && BranchAt(t, p)
    ensures Lookup(Add(t, p, c), q) == if q == p then Some(c) else if p <= q then None else Lookup(t, q)
    decreases t
  {
    var e := t.entries[Slot(p)].value;
    WfSlot(t, Slot(p));
    if e.path == p {
      LeafLookup(p, c, q);
      EdgeNeedsPath(e, q);
    } else if Slot(q) == Slot(p) {
      hide Count;
      PrefixCpl(e.path, p);
      if e.path <= q {
        AddAtBranch(e.sub, p[|e.path|..], c, q[|e.path|..]);
        TailsAgree(e.path, p, q);
        PrefixTails(e.path, p, q);
      } else {
        NotExtended(e.path, p, q);
      }
    } else {
      assert p <= q ==> Slot(p) == Slot(q);
    }
  }

  lemma NotExtended(pre: Path, p: Path, q: Path)
    requires pre <= p && !(pre <= q)
    ensures !(p <= q)
  {
  }

  lemma DeleteExact(t: Trie, p: Path, q: Path)
    requires Wf(t)
    ensures Lookup(Delete(t, p), q) == if q == p || (BranchAt(t, p) && p <= q) then None else Lookup(t, q)
  {
    hide BranchAt, Lookup, Delete, Wf;
    if BranchAt(t, p) {
      DeleteAtBranch(t, p, q);
    } else {
      DeleteLookup(t, p, q);
    }
  }

  lemma {:induction false} DeleteAtBranch(t: Trie, p: Path, q: Path)
    requires Wf(t) && BranchAt(t, p)
    ensures Lookup(Delete(t, p), q) == if p <= q then None else Lookup(t, q)
    decreases t
  {
    hide Count, Last, LookupEdge, DeleteBelow;
    var e := t.entries[Slot(p)].value;
    WfSlot(t, Slot(p));
    if e.path == p {
      EdgeNeedsPath(e, q);
    } else if Slot(q) == Slot(p) {
      DeleteBelowWf(e, p);
      DeleteBelowBranch(e, p, q);
    } else {
      assert p <= q ==> Slot(p) == Slot(q);
    }
  }

  lemma {:induction false} DeleteBelowBranch(e: Edge, p: Path, q: Path)
    requires WfEdge(e, Slot(p)) && e.path != p && p != [] && BranchAtEdge(e, p) && DeleteBelow(e, p).Some?
    ensures LookupEdge(DeleteBelow(e, p).value, q) == if p <= q then None else LookupEdge(e, q)
    decreases e
  {
    hide Count, Last, Wf;
    var p' := p[|e.path|..];
    var sub := Delete(e.sub, p');
    DeleteWf(e.sub, p');
    if e.path <= q {
      DeleteAtBranch(e.sub, p', q[|e.path|..]);
      PrefixTails(e.path, p, q);
    } else {
      NotExtended(e.path, p, q);
    }
    if Count(sub.entries) < 2 {
      CollapseLookup(e.path, sub, q);
    }
  }
}
