/** Lookups by prefix: findPrefixOf walks towards a query and reports the stored
    path it ends at, listWithPrefix reports every stored path under a prefix. */
module ManifestQuery {
  import opened Bytes
  import opened Manifest
  import opened ManifestTheory

  // ----- findPrefixOf -----

  datatype Found = Found(content: Content, pos: nat)

  function Here(t: Trie): Option<Found> {
    if 256 < |t.entries| && t.entries[256].Some? && t.entries[256].value.Leaf?
    then Some(Found(t.entries[256].value.content, 0)) else None
  }

  function Further(f: Option<Found>, n: nat): Option<Found> {
    match f case None => None case Some(Found(c, k)) => Some(Found(c, k + n))
  }

  /** The source does not fall back on a shorter stored path when an edge turns
      out to lead elsewhere. */
  function FindPrefix(t: Trie, p: Path): Option<Found>
    decreases t
  {
    if p == [] || Slot(p) >= |t.entries| || t.entries[Slot(p)].None? then Here(t)
    else FindEdge(t.entries[Slot(p)].value, p)
  }

  function FindEdge(e: Edge, p: Path): Option<Found>
    decreases e
  {
    if e.path <= p then
      match e
      case Leaf(q, c) => Some(Found(c, |q|))
      case Branch(q, sub) => Further(FindPrefix(sub, p[|q|..]), |q|)
    else None
  }

  /** No stored path follows the query for longer than n bytes. */
  ghost predicate Furthest(t: Trie, p: Path, n: nat) {
    forall q :: Stored(t, q) ==> Cpl(q, p) <= n
  }

  ghost predicate FurthestEdge(e: Edge, p: Path, n: nat) {
    forall q :: LookupEdge(e, q).Some? ==> Cpl(q, p) <= n
  }

  lemma {:induction false} CplSymmetric(a: Path, b: Path)
    ensures Cpl(a, b) == Cpl(b, a)
  {
    if a != [] && b != [] && a[0] == b[0] {
      CplSymmetric(a[1..], b[1..]);
    }
  }

  /** Only the edge in the slot of the query can share a byte with it. */
  lemma FurthestSlot(t: Trie, p: Path, n: nat)
    requires Wf(t) && p != []
    requires t.entries[Slot(p)].Some? ==> FurthestEdge(t.entries[Slot(p)].value, p, n)
    ensures Furthest(t, p, n)
  {
    hide LookupEdge, Wf, Count;
    forall q | Stored(t, q)
      ensures Cpl(q, p) <= n
    {
      if Slot(q) == Slot(p) {
        assert LookupEdge(t.entries[Slot(p)].value, q).Some?;
      } else {
        DifferentSlots(q, p);
      }
    }
  }

  /** What is found is stored, and no stored path follows the query further. */
  lemma {:induction false} FindSound(t: Trie, p: Path)
    requires Wf(t) && FindPrefix(t, p).Some?
    ensures var f := FindPrefix(t, p).value;
            f.pos <= |p| && Lookup(t, p[..f.pos]) == Some(f.content) && Furthest(t, p, f.pos)
    decreases t
  {
    hide Count, FindEdge, LookupEdge;
    if p == [] || t.entries[Slot(p)].None? {
      HereLookup(t);
      assert p[..0] == [];
      if p != [] {
        FurthestSlot(t, p, 0);
      }
    } else {
      var e := t.entries[Slot(p)].value;
      WfSlot(t, Slot(p));
      FindEdgeSound(e, p);
      FurthestSlot(t, p, FindEdge(e, p).value.pos);
    }
  }

  lemma HereLookup(t: Trie)
    requires Wf(t)
    ensures Here(t).Some? <==> Stored(t, [])
    ensures Here(t).Some? ==> Here(t).value.pos == 0 && Lookup(t, []) == Some(Here(t).value.content)
  {
    assert Slot([]) == 256;
    if t.entries[256].Some? {
      WfSlot(t, 256);
      var e := t.entries[256].value;
      assert e.path == [];
      assert e.Leaf?;
      LeafLookup(e.path, e.content, []);
      assert Lookup(t, []) == LookupEdge(e, []);
    }
  }

  lemma {:induction false} FindEdgeSound(e: Edge, p: Path)
    requires WfEdge(e, Slot(p)) && p != [] && FindEdge(e, p).Some?
    ensures var f := FindEdge(e, p).value;
            0 < f.pos <= |p| && LookupEdge(e, p[..f.pos]) == Some(f.content) && FurthestEdge(e, p, f.pos)
    decreases e
  {
    hide Wf, Count, Lookup, FindPrefix;
    assert e.path != [];
    if e.Branch? {
      var n, p' := |e.path|, p[|e.path|..];
      FindSound(e.sub, p');
      var f := FindPrefix(e.sub, p').value;
      assert p[..n + f.pos][n..] == p'[..f.pos];
      assert p == e.path + p';
      forall q | LookupEdge(e, q).Some?
        ensures Cpl(q, p) <= n + f.pos
      {
        assert q == e.path + q[n..];
        CplShift(e.path, q[n..], p');
        assert Stored(e.sub, q[n..]);
      }
    }
  }

  /** A stored prefix of the query that no stored path outruns is found. */
  lemma {:induction false} FindComplete(t: Trie, p: Path, n: nat)
    requires Wf(t) && n <= |p| && Stored(t, p[..n]) && Furthest(t, p, n)
    ensures FindPrefix(t, p).Some? && FindPrefix(t, p).value.pos == n
    decreases t
  {
    hide Count, FindEdge, LookupEdge;
    HereLookup(t);
    if n == 0 {
      assert p[..0] == [];
      if p != [] && t.entries[Slot(p)].Some? {
        WfSlot(t, Slot(p));
        var q := EdgeStores(t.entries[Slot(p)].value, Slot(p));
        assert Stored(t, q);
        assert Cpl(q, p) > 0;
      }
    } else {
      assert Slot(p[..n]) == Slot(p);
      var e := t.entries[Slot(p)].value;
      WfSlot(t, Slot(p));
      EdgeFurthest(t, p, n);
      FindEdgeComplete(e, p, n);
    }
  }

  lemma EdgeFurthest(t: Trie, p: Path, n: nat)
    requires Wf(t) && Furthest(t, p, n) && t.entries[Slot(p)].Some?
    ensures FurthestEdge(t.entries[Slot(p)].value, p, n)
  {
    var e := t.entries[Slot(p)].value;
    WfSlot(t, Slot(p));
    hide LookupEdge, Wf, Count;
    forall q | LookupEdge(e, q).Some?
      ensures Cpl(q, p) <= n
    {
      EdgeNeedsPath(e, q);
      assert Stored(t, q);
    }
  }

  lemma {:induction false} FindEdgeComplete(e: Edge, p: Path, n: nat)
    requires WfEdge(e, Slot(p)) && 0 < n <= |p| && LookupEdge(e, p[..n]).Some? && FurthestEdge(e, p, n)
    ensures FindEdge(e, p).Some? && FindEdge(e, p).value.pos == n
    decreases e
  {
    hide Wf, Count, Lookup, FindPrefix;
    EdgeNeedsPath(e, p[..n]);
    assert e.path <= p[..n] <= p;
    if e.Branch? {
      var m, p' := |e.path|, p[|e.path|..];
      assert p == e.path + p';
      assert p[..n][m..] == p'[..n - m];
      forall q | Stored(e.sub, q)
        ensures Cpl(q, p') <= n - m
      {
        assert (e.path + q)[m..] == q;
        assert LookupEdge(e, e.path + q).Some?;
        CplShift(e.path, q, p');
      }
      FindComplete(e.sub, p', n - m);
    }
  }

  /** Exactly when the source finds something: some stored prefix of the query is
      not outrun by another stored path that then leaves the query. */
  lemma FindIff(t: Trie, p: Path)
    requires Wf(t)
    ensures FindPrefix(t, p).Some? <==> exists n | 0 <= n <= |p| :: Stored(t, p[..n]) && Furthest(t, p, n)
  {
    hide Furthest;
    if FindPrefix(t, p).Some? {
      FindSound(t, p);
    }
    if n: nat :| 0 <= n <= |p| && Stored(t, p[..n]) && Furthest(t, p, n) {
      FindComplete(t, p, n);
    }
  }

  /** What is found is the longest stored path that prefixes the query. */
  lemma FindLongest(t: Trie, p: Path, q: Path)
    requires Wf(t) && FindPrefix(t, p).Some? && Stored(t, q) && q <= p
    ensures |q| <= FindPrefix(t, p).value.pos
  {
    FindSound(t, p);
    PrefixCpl(q, p);
  }

  /** A path that is itself stored is always found. */
  lemma FindExact(t: Trie, p: Path)
    requires Wf(t) && Stored(t, p)
    ensures FindPrefix(t, p) == Some(Found(Lookup(t, p).value, |p|))
  {
    assert p[..|p|] == p;
    forall q | Stored(t, q)
      ensures Cpl(q, p) <= |p|
    {
    }
    FindComplete(t, p, |p|);
    FindSound(t, p);
  }

  // ----- listWithPrefix -----

  datatype Item = Item(suffix: Path, content: Content)

  function Min(a: nat, b: nat): nat {
    if a < b then a else b
  }

  /** Slots i to 256 (all of them), or the one slot the prefix selects. */
  function List(t: Trie, prefix: Path, rp: Path): seq<Item>
    decreases t, 1, 0
  {
    if |t.entries| != SLOTS then []
    else if prefix == [] then ListFrom(t, prefix, rp, 0)
    else ListSlot(t, prefix, rp, prefix[0])
  }

  function ListFrom(t: Trie, prefix: Path, rp: Path, i: nat): seq<Item>
    requires |t.entries| == SLOTS && i <= SLOTS
    decreases t, 0, SLOTS - i
  {
    if i == SLOTS then [] else ListSlot(t, prefix, rp, i) + ListFrom(t, prefix, rp, i + 1)
  }

  function ListSlot(t: Trie, prefix: Path, rp: Path, i: nat): seq<Item>
    requires |t.entries| == SLOTS && i < SLOTS
    decreases t, 0, 0
  {
    if t.entries[i].None? then [] else ListEdge(t.entries[i].value, prefix, rp)
  }

  function ListEdge(e: Edge, prefix: Path, rp: Path): seq<Item>
    decreases e, 0, 0
  {
    match e
    case Branch(q, sub) =>
      var l := Min(|prefix|, |q|);
      if prefix[..l] == q[..l] then List(sub, prefix[l..], rp + q[l..]) else []
    case Leaf(q, c) =>
      if prefix <= q then [Item(rp + q[|prefix|..], c)] else []
  }

  /** How often an item is reported. */
  function Reports(xs: seq<Item>, x: Item): nat {
    multiset(xs)[x]
  }

  /** How often it should be: once if its suffix completes the prefix to a stored path. */
  function Due(v: Option<Content>, c: Content): nat {
    if v == Some(c) then 1 else 0
  }

  function DueIn(t: Trie, prefix: Path, rp: Path, x: Item): nat {
    if rp <= x.suffix then Due(Lookup(t, prefix + x.suffix[|rp|..]), x.content) else 0
  }

  function DueInEdge(e: Edge, prefix: Path, rp: Path, x: Item): nat {
    if rp <= x.suffix then Due(LookupEdge(e, prefix + x.suffix[|rp|..]), x.content) else 0
  }

  lemma ReportsAppend(xs: seq<Item>, ys: seq<Item>, x: Item)
    ensures Reports(xs + ys, x) == Reports(xs, x) + Reports(ys, x)
  {
  }

  lemma {:induction false} ListExact(t: Trie, prefix: Path, rp: Path, x: Item)
    requires Wf(t)
    ensures Reports(List(t, prefix, rp), x) == DueIn(t, prefix, rp, x)
    decreases t, 1, 0
  {
    hide Count, ListFrom, ListSlot, Reports, LookupEdge, DueInEdge;
    if prefix == [] {
      ListFromExact(t, rp, 0, x);
    } else {
      ListSlotExact(t, prefix, rp, prefix[0], x);
    }
  }

  lemma {:induction false} ListFromExact(t: Trie, rp: Path, i: nat, x: Item)
    requires Wf(t) && i <= SLOTS
    ensures Reports(ListFrom(t, [], rp, i), x) ==
            if rp <= x.suffix && Slot(x.suffix[|rp|..]) >= i then DueIn(t, [], rp, x) else 0
    decreases t, 0, SLOTS - i
  {
    hide Count, ListSlot, Reports, DueIn;
    if i == SLOTS {
      NoReports(x);
    } else {
      ListSlotExact(t, [], rp, i, x);
      ListFromExact(t, rp, i + 1, x);
      ReportsAppend(ListSlot(t, [], rp, i), ListFrom(t, [], rp, i + 1), x);
    }
  }

  lemma NoReports(x: Item)
    ensures Reports([], x) == 0
  {
  }

  lemma {:induction false} ListSlotExact(t: Trie, prefix: Path, rp: Path, i: nat, x: Item)
    requires Wf(t) && i < SLOTS && (prefix != [] ==> i == prefix[0])
    ensures Reports(ListSlot(t, prefix, rp, i), x) ==
            if rp <= x.suffix && Slot(prefix + x.suffix[|rp|..]) == i then DueIn(t, prefix, rp, x) else 0
    decreases t, 0, 0
  {
    hide Count, Reports, ListEdge, LookupEdge;
    NoReports(x);
    if t.entries[i].Some? {
      WfSlot(t, i);
      var e := t.entries[i].value;
      ListEdgeExact(e, i, prefix, rp, x);
      if rp <= x.suffix {
        EdgeNeedsPath(e, prefix + x.suffix[|rp|..]);
      }
    }
  }

  lemma {:induction false} ListEdgeExact(e: Edge, b: nat, prefix: Path, rp: Path, x: Item)
    requires WfEdge(e, b)
    ensures Reports(ListEdge(e, prefix, rp), x) == DueInEdge(e, prefix, rp, x)
    decreases e, 0, 0
  {
    NoReports(x);
    if e.Leaf? {
      LeafItem(e, prefix, rp, x);
    } else {
      var l := Min(|prefix|, |e.path|);
      if prefix[..l] == e.path[..l] {
        ListExact(e.sub, prefix[l..], rp + e.path[l..], x);
        BranchDue(e, prefix, rp, x);
      } else {
        NotUnder(e, prefix, rp, x);
      }
    }
  }

  lemma LeafItem(e: Edge, prefix: Path, rp: Path, x: Item)
    requires e.Leaf?
    ensures Reports(ListEdge(e, prefix, rp), x) == DueInEdge(e, prefix, rp, x)
  {
    if prefix <= e.path {
      var it := Item(rp + e.path[|prefix|..], e.content);
      assert e.path == prefix + e.path[|prefix|..];
      assert Reports([it], x) == if x == it then 1 else 0;
      if rp <= x.suffix {
        var s := x.suffix[|rp|..];
        assert x.suffix == rp + s;
        assert prefix + s == e.path ==> s == e.path[|prefix|..] by { assert (prefix + s)[|prefix|..] == s; }
        assert it.suffix[|rp|..] == e.path[|prefix|..];
      }
    } else if rp <= x.suffix {
      assert prefix <= prefix + x.suffix[|rp|..];
    }
  }

  lemma SharedCut(a: Path, b: Path, n: nat)
    requires a <= b && n <= |a|
    ensures a[..n] == b[..n]
  {
  }

  lemma NotUnder(e: Edge, prefix: Path, rp: Path, x: Item)
    requires e.Branch? && var l := Min(|prefix|, |e.path|); prefix[..l] != e.path[..l]
    ensures DueInEdge(e, prefix, rp, x) == 0
  {
    var l := Min(|prefix|, |e.path|);
    if rp <= x.suffix {
      var full := prefix + x.suffix[|rp|..];
      assert full[..l] == prefix[..l];
      if e.path <= full {
        SharedCut(e.path, full, l);
      }
    }
  }

  lemma BranchDue(e: Edge, prefix: Path, rp: Path, x: Item)
    requires e.Branch? && var l := Min(|prefix|, |e.path|); prefix[..l] == e.path[..l]
    ensures var l := Min(|prefix|, |e.path|);
            DueIn(e.sub, prefix[l..], rp + e.path[l..], x) == DueInEdge(e, prefix, rp, x)
  {
    hide Lookup, Due;
    if |e.path| <= |prefix| {
      assert e.path[|e.path|..] == [] && rp + [] == rp && e.path[..|e.path|] == e.path;
      if rp <= x.suffix {
        var s := x.suffix[|rp|..];
        assert prefix == e.path + prefix[|e.path|..];
        assert (prefix + s)[|e.path|..] == prefix[|e.path|..] + s;
        assert e.path <= prefix + s;
        assert LookupEdge(e, prefix + s) == Lookup(e.sub, prefix[|e.path|..] + s);
      }
    } else {
      assert prefix[..|prefix|] == prefix;
      assert prefix[|prefix|..] == [];
      BranchBeyond(e, prefix, rp, x);
    }
  }

  lemma BranchBeyond(e: Edge, prefix: Path, rp: Path, x: Item)
    requires e.Branch? && prefix <= e.path
    ensures DueIn(e.sub, [], rp + e.path[|prefix|..], x) == DueInEdge(e, prefix, rp, x)
  {
    hide Lookup;
    var rest := e.path[|prefix|..];
    assert e.path == prefix + rest;
    if rp <= x.suffix {
      var s := x.suffix[|rp|..];
      assert x.suffix == rp + s;
      assert e.path <= prefix + s <==> rest <= s by {
        if e.path <= prefix + s {
          assert rest == (prefix + s)[|prefix|..|e.path|] == s[..|rest|];
        }
      }
      assert rp + rest <= x.suffix <==> rest <= s by {
        if rp + rest <= x.suffix {
          assert rest == x.suffix[|rp|..|rp + rest|] == s[..|rest|];
        }
      }
      if rest <= s {
        assert x.suffix[|rp + rest|..] == s[|rest|..] == (prefix + s)[|e.path|..];
        assert [] + s[|rest|..] == s[|rest|..];
        assert LookupEdge(e, prefix + s) == Lookup(e.sub, s[|rest|..]);
      }
    } else {
      assert rp <= rp + rest;
    }
  }

  /** Every stored path under the prefix is reported exactly once, with the rest
      of the path and its own content, and nothing else is reported. */
  lemma ListWithPrefix(t: Trie, prefix: Path, suffix: Path, c: Content)
    requires Wf(t)
    ensures Reports(List(t, prefix, []), Item(suffix, c)) ==
            if Lookup(t, prefix + suffix) == Some(c) then 1 else 0
  {
    ListExact(t, prefix, [], Item(suffix, c));
    assert suffix[0..] == suffix;
  }

  // ----- the order of the listing -----

  /** a comes before b: they share some bytes, and then a goes on with a smaller
      byte than b, or goes on where b ends. */
  predicate Ahead(a: Path, b: Path) {
    Slot(a) < Slot(b) || (a != [] && b != [] && a[0] == b[0] && Ahead(a[1..], b[1..]))
  }

  lemma {:induction false} AheadShift(pre: Path, a: Path, b: Path)
    ensures Ahead(pre + a, pre + b) <==> Ahead(a, b)
  {
    if pre == [] {
      assert pre + a == a && pre + b == b;
    } else {
      assert (pre + a)[1..] == pre[1..] + a && (pre + b)[1..] == pre[1..] + b;
      AheadShift(pre[1..], a, b);
    }
  }

  ghost predicate InOrder(xs: seq<Item>) {
    forall i, j :: 0 <= i < j < |xs| ==> Ahead(xs[i].suffix, xs[j].suffix)
  }

  lemma OrderConcat(xs: seq<Item>, ys: seq<Item>)
    requires InOrder(xs) && InOrder(ys)
    requires forall x, y :: x in xs && y in ys ==> Ahead(x.suffix, y.suffix)
    ensures InOrder(xs + ys)
  {
    hide Ahead;
    var zs := xs + ys;
    forall i, j | 0 <= i < j < |zs|
      ensures Ahead(zs[i].suffix, zs[j].suffix)
    {
      if i < |xs| <= j {
        assert zs[i] in xs && zs[j] in ys;
      }
    }
  }

  lemma Reported(xs: seq<Item>, x: Item)
    ensures x in xs <==> Reports(xs, x) > 0
  {
    assert x in xs <==> x in multiset(xs);
  }

  lemma SlotItem(t: Trie, rp: Path, i: nat, x: Item)
    requires Wf(t) && i < SLOTS && x in ListSlot(t, [], rp, i)
    ensures rp <= x.suffix && Slot(x.suffix[|rp|..]) == i
  {
    hide ListSlot, Reports, DueIn;
    Reported(ListSlot(t, [], rp, i), x);
    ListSlotExact(t, [], rp, i, x);
    if rp <= x.suffix {
      assert [] + x.suffix[|rp|..] == x.suffix[|rp|..];
    }
  }

  lemma LaterItem(t: Trie, rp: Path, i: nat, x: Item)
    requires Wf(t) && i <= SLOTS && x in ListFrom(t, [], rp, i)
    ensures rp <= x.suffix && Slot(x.suffix[|rp|..]) >= i
  {
    hide ListFrom, Reports, DueIn;
    Reported(ListFrom(t, [], rp, i), x);
    ListFromExact(t, rp, i, x);
  }

  /** The paths are listed in order: by byte, and each path after those that extend
      it. */
  lemma {:induction false} ListOrder(t: Trie, prefix: Path, rp: Path)
    requires Wf(t)
    ensures InOrder(List(t, prefix, rp))
    decreases t, 1, 0
  {
    hide Count, ListFrom, ListSlot, InOrder, Wf;
    if |t.entries| != SLOTS {
      NoOrder();
    } else if prefix == [] {
      ListFromOrder(t, rp, 0);
    } else {
      ListSlotOrder(t, prefix, rp, prefix[0]);
    }
  }

  lemma NoOrder()
    ensures InOrder([])
  {
  }

  lemma {:induction false} ListFromOrder(t: Trie, rp: Path, i: nat)
    requires Wf(t) && i <= SLOTS
    ensures |t.entries| == SLOTS && InOrder(ListFrom(t, [], rp, i))
    decreases t, 0, SLOTS - i
  {
    hide Count, ListSlot, InOrder, Ahead;
    if i == SLOTS {
      NoOrder();
    } else {
      ListSlotOrder(t, [], rp, i);
      ListFromOrder(t, rp, i + 1);
      var xs, ys := ListSlot(t, [], rp, i), ListFrom(t, [], rp, i + 1);
      forall x, y | x in xs && y in ys
        ensures Ahead(x.suffix, y.suffix)
      {
        SlotItem(t, rp, i, x);
        LaterItem(t, rp, i + 1, y);
        SlotsAhead(rp, x.suffix, y.suffix);
      }
      OrderConcat(xs, ys);
    }
  }

  lemma SlotsAhead(rp: Path, a: Path, b: Path)
    requires rp <= a && rp <= b && Slot(a[|rp|..]) < Slot(b[|rp|..])
    ensures Ahead(a, b)
  {
    assert a == rp + a[|rp|..] && b == rp + b[|rp|..];
    AheadShift(rp, a[|rp|..], b[|rp|..]);
  }

  lemma {:induction false} ListSlotOrder(t: Trie, prefix: Path, rp: Path, i: nat)
    requires Wf(t) && i < SLOTS
    ensures InOrder(ListSlot(t, prefix, rp, i))
    decreases t, 0, 0
  {
    hide Count, ListEdge;
    if t.entries[i].Some? {
      WfSlot(t, i);
      ListEdgeOrder(t.entries[i].value, i, prefix, rp);
    }
  }

  lemma {:induction false} ListEdgeOrder(e: Edge, b: nat, prefix: Path, rp: Path)
    requires WfEdge(e, b)
    ensures InOrder(ListEdge(e, prefix, rp))
    decreases e, 0, 0
  {
    if e.Branch? {
      var l := Min(|prefix|, |e.path|);
      if prefix[..l] == e.path[..l] {
        ListOrder(e.sub, prefix[l..], rp + e.path[l..]);
      }
    }
  }
}
