/** What a failed load costs. The source drops the hash of an entry before it
    knows whether the load succeeded, so a failure leaves an entry that leads
    nowhere. Such an entry cannot be stored again, and what was below it is
    forgotten; everything else stays. */
module ManifestLost {
  import opened Bytes
  import opened Manifest
  import opened ManifestStore

  // ----- lost entries -----

  /** The branch entry at this path has neither a hash nor a subtrie. */
  predicate LostAt(n: Node, q: Path)
    decreases n
  {
    q != [] && Slot(q) < |n.slots| && n.slots[Slot(q)].Some? && LostLink(n.slots[Slot(q)].value, q)
  }

  predicate LostLink(l: Link, q: Path)
    decreases l
  {
    && l.SubLink? && l.path <= q
    && if q == l.path then l.hash.None? && l.sub.None?
       else l.sub.Some? && LostAt(l.sub.value, q[|l.path|..])
  }

  /** Exactly the given entry is lost beyond those that were. */
  ghost predicate Loses(n: Node, n': Node, lost: Option<Path>) {
    forall q :: LostAt(n', q) <==> lost == Some(q) || LostAt(n, q)
  }

  ghost predicate LosesLink(l: Link, l': Link, lost: Option<Path>) {
    forall q :: LostLink(l', q) <==> lost == Some(q) || LostLink(l, q)
  }

  /** No entry is lost that was not lost before. */
  ghost predicate NoneLost(n: Node, n': Node) {
    forall q :: LostAt(n', q) ==> LostAt(n, q)
  }

  ghost predicate NoneLostLink(l: Link, l': Option<Link>) {
    l'.Some? ==> forall q :: LostLink(l'.value, q) ==> LostLink(l, q)
  }

  lemma SubLost(p: Path, k: Option<Key>, m: Node, q: Path)
    ensures LostLink(SubLink(p, k, Some(m)), q) <==> p <= q && p != q && LostAt(m, q[|p|..])
  {
  }

  lemma UnloadedLost(p: Path, k: Option<Key>, q: Path)
    ensures LostLink(SubLink(p, k, None), q) <==> q == p && k.None?
  {
  }

  lemma SlotLost(n: Node, b: nat, l: Option<Link>, k: Option<Key>, q: Path)
    requires b < |n.slots|
    ensures LostAt(Node(n.slots[b := l], k), q) <==>
              if Slot(q) == b then q != [] && l.Some? && LostLink(l.value, q) else LostAt(n, q)
  {
    hide LostLink;
  }

  /** A node that was just read has lost nothing. */
  lemma FreshLost(n: Node, q: Path)
    requires forall b :: 0 <= b < |n.slots| && n.slots[b].Some? && n.slots[b].value.SubLink? ==>
                           n.slots[b].value.sub.None? && n.slots[b].value.hash.Some?
    ensures !LostAt(n, q)
  {
  }

  function Relinked(l: Link, p: Path): Link {
    match l case UserLink(_, c) => UserLink(p, c) case SubLink(_, k, n) => SubLink(p, k, n)
  }

  /** Moving an entry along its path moves what it has lost. */
  lemma RelinkLost(l: Link, pre: Path, q: Path)
    ensures LostLink(Relinked(l, pre + l.path), pre + q) <==> LostLink(l, q)
  {
    if l.SubLink? {
      assert (pre + l.path <= pre + q) <==> l.path <= q by {
        if pre + l.path <= pre + q {
          assert l.path == (pre + l.path)[|pre|..] && q == (pre + q)[|pre|..];
          assert l.path <= q;
        }
      }
      if l.path <= q {
        assert (pre + q)[|pre + l.path|..] == q[|l.path|..];
        assert pre + q == pre + l.path <==> q == l.path by { assert (pre + q)[|pre|..] == q && (pre + l.path)[|pre|..] == l.path; }
      }
    }
  }

  lemma LostNeedsPath(l: Link, q: Path)
    ensures LostLink(l, q) ==> l.path <= q
  {
  }

  /** Replacing the entry in one slot. */
  lemma SlotLoses(n: Node, b: nat, l': Link, k: Option<Key>, lost: Option<Path>)
    requires b < |n.slots| && n.slots[b].Some? && LosesLink(n.slots[b].value, l', lost)
    requires lost.Some? ==> lost.value != [] && Slot(lost.value) == b
    ensures Loses(n, Node(n.slots[b := Some(l')], k), lost)
  {
    hide LostLink;
    var n' := Node(n.slots[b := Some(l')], k);
    forall q
      ensures LostAt(n', q) <==> lost == Some(q) || LostAt(n, q)
    {
      SlotLost(n, b, Some(l'), k, q);
    }
  }

  lemma SlotKeeps(n: Node, b: nat, l': Option<Link>, k: Option<Key>)
    requires b < |n.slots|
    requires l'.Some? && l'.value.SubLink? ==> n.slots[b].Some? && NoneLostLink(n.slots[b].value, l')
    ensures NoneLost(n, Node(n.slots[b := l'], k))
  {
    var n' := Node(n.slots[b := l'], k);
    forall q | LostAt(n', q)
      ensures LostAt(n, q)
    {
      SlotLost(n, b, l', k, q);
    }
  }

  /** Working on the loaded subtrie of an entry. */
  lemma SubLoses(l: Link, m: Node, m': Node, k: Option<Key>, lost: Option<Path>)
    requires l.SubLink? && l.sub == Some(m) && Loses(m, m', lost) && (lost.Some? ==> lost.value != [])
    ensures LosesLink(l, SubLink(l.path, k, Some(m')), if lost.Some? then Some(l.path + lost.value) else None)
  {
    var lost' := if lost.Some? then Some(l.path + lost.value) else None;
    forall q
      ensures LostLink(SubLink(l.path, k, Some(m')), q) <==> lost' == Some(q) || LostLink(l, q)
    {
      SubLost(l.path, k, m', q);
      SubLost(l.path, l.hash, m, q);
      hide LostLink, LostAt;
      if lost.Some? {
        assert (l.path + lost.value)[|l.path|..] == lost.value;
        assert l.path <= l.path + lost.value;
        if l.path <= q {
          assert q == l.path + q[|l.path|..];
        }
      }
    }
  }

  lemma SubKeeps(l: Link, m: Node, m': Node, k: Option<Key>)
    requires l.SubLink? && l.sub == Some(m) && NoneLost(m, m')
    ensures NoneLostLink(l, Some(SubLink(l.path, k, Some(m'))))
  {
    forall q | LostLink(SubLink(l.path, k, Some(m')), q)
      ensures LostLink(l, q)
    {
      SubLost(l.path, k, m', q);
      SubLost(l.path, l.hash, m, q);
    }
  }

  lemma LosesThen(l: Link, l1: Link, l2: Link, lost: Option<Path>)
    requires LosesLink(l, l1, None) && LosesLink(l1, l2, lost)
    ensures LosesLink(l, l2, lost)
  {
    hide LostLink;
  }

  lemma KeepsThen(l: Link, l1: Link, l2: Option<Link>)
    requires LosesLink(l, l1, None) && NoneLostLink(l1, l2)
    ensures NoneLostLink(l, l2)
  {
    hide LostLink;
  }

  lemma LosesNothing(n: Node)
    ensures Loses(n, n, None)
  {
    hide LostAt;
  }

  lemma LosesNoLink(l: Link)
    ensures LosesLink(l, l, None)
  {
    hide LostLink;
  }

  lemma LosesTrans(n: Node, n1: Node, n2: Node, lost: Option<Path>)
    requires Loses(n, n1, None) && Loses(n1, n2, lost)
    ensures Loses(n, n2, lost)
  {
    hide LostAt;
  }

  // ----- what can be stored -----

  /** Everything below the node has a hash or can be given one. */
  predicate Storable(n: Node)
    decreases n
  {
    n.hash.Some? || forall b :: 0 <= b < |n.slots| && n.slots[b].Some? ==> StorableLink(n.slots[b].value)
  }

  predicate StorableLink(l: Link)
    decreases l
  {
    l.SubLink? ==> l.hash.Some? || (l.sub.Some? && Storable(l.sub.value))
  }

  lemma SlotUnstorable(n: Node, b: nat, l: Link)
    requires b < |n.slots| && !StorableLink(l)
    ensures !Storable(Node(n.slots[b := Some(l)], None))
  {
    hide StorableLink;
    var n' := Node(n.slots[b := Some(l)], None);
    assert n'.slots[b] == Some(l);
  }

  /** A node whose missing parts can all be loaded can be stored. */
  lemma {:induction false} FullStorable(h: Doc -> Key, store: Store, n: Node, t: Trie)
    requires Rep(h, store, true, n, t)
    ensures Storable(n)
    decreases t
  {
    hide KeyOf, Kept;
    if n.hash.None? {
      forall b | 0 <= b < |n.slots| && n.slots[b].Some?
        ensures StorableLink(n.slots[b].value)
      {
        assert RepSlot(h, store, true, n.slots[b], t.entries[b]);
        var l := n.slots[b].value;
        if l.SubLink? && l.hash.None? {
          FullStorable(h, store, l.sub.value, t.entries[b].value.sub);
        }
      }
    }
  }

  // ----- what the node still determines -----

  /** A node that can be stored stands for one trie only. */
  lemma {:induction false} RepDetermines(h: Doc -> Key, store: Store, full: bool, n: Node, t: Trie, u: Trie)
    requires Injective(h) && Wf(t) && Wf(u) && Storable(n)
    requires Rep(h, store, full, n, t) && Rep(h, store, full, n, u)
    ensures t == u
    decreases t, 1
  {
    hide KeyOf, Kept, Count, Injective, StorableLink;
    if n.hash.Some? {
      KeyBinds(h, t, u);
    } else {
      forall b | 0 <= b < SLOTS
        ensures t.entries[b] == u.entries[b]
      {
        assert RepSlot(h, store, full, n.slots[b], t.entries[b]) && RepSlot(h, store, full, n.slots[b], u.entries[b]);
        if n.slots[b].Some? {
          WfSlot(t, b);
          WfSlot(u, b);
          LinkDetermines(h, store, full, n.slots[b].value, t.entries[b].value, u.entries[b].value, b);
        }
      }
    }
  }

  lemma {:induction false} LinkDetermines(h: Doc -> Key, store: Store, full: bool, l: Link, e: Edge, f: Edge, b: nat)
    requires Injective(h) && WfEdge(e, b) && WfEdge(f, b) && StorableLink(l)
    requires RepSlot(h, store, full, Some(l), Some(e)) && RepSlot(h, store, full, Some(l), Some(f))
    ensures e == f
    decreases e, 0
  {
    hide KeyOf, Kept, Count, Injective, Storable, Rep, Wf;
    if l.SubLink? {
      if l.hash.Some? {
        KeyBinds(h, e.sub, f.sub);
      } else {
        RepDetermines(h, store, full, l.sub.value, e.sub, f.sub);
      }
    }
  }

  /** One that cannot be stored stands for others as well: what was below the lost
      entry is forgotten. */
  lemma {:induction false} RepForgets(h: Doc -> Key, store: Store, n: Node, t: Trie) returns (u: Trie)
    requires Wf(t) && Rep(h, store, false, n, t) && !Storable(n)
    ensures Wf(u) && Rep(h, store, false, n, u) && u != t && Count(u.entries) == Count(t.entries)
    decreases t, 1
  {
    hide Count, StorableLink, Kept;
    var b :| 0 <= b < |n.slots| && n.slots[b].Some? && !StorableLink(n.slots[b].value);
    assert RepSlot(h, store, false, n.slots[b], t.entries[b]);
    RepSlotSome(h, store, n.slots[b], t.entries[b]);
    WfSlot(t, b);
    var f := LinkForgets(h, store, n.slots[b].value, t.entries[b].value, b);
    u := At(t, b, Some(f));
    CountUpdate(t.entries, b, Some(f));
    hide RepSlot;
  }

  lemma RepSlotSome(h: Doc -> Key, store: Store, l: Option<Link>, e: Option<Edge>)
    requires RepSlot(h, store, false, l, e)
    ensures l.Some? <==> e.Some?
  {
  }

  lemma {:induction false} LinkForgets(h: Doc -> Key, store: Store, l: Link, e: Edge, b: nat) returns (f: Edge)
    requires WfEdge(e, b) && RepSlot(h, store, false, Some(l), Some(e)) && !StorableLink(l)
    ensures WfEdge(f, b) && RepSlot(h, store, false, Some(l), Some(f)) && f != e
    decreases e, 0
  {
    hide Kept, Storable, Wf, Count, Rep;
    if l.sub.Some? {
      var s := RepForgets(h, store, l.sub.value, e.sub);
      f := Branch(e.path, s);
    } else {
      var s := OtherSubtrie(e.sub);
      f := Branch(e.path, s);
    }
  }

  lemma OtherSubtrie(t: Trie) returns (u: Trie)
    ensures Wf(u) && Count(u.entries) == 2 && u != t
  {
    var c := Content([], 0, 0);
    var v, w := Fork(Leaf([0], c), Leaf([1], c)), Fork(Leaf([0], c), Leaf([2], c));
    ForkWf(Leaf([0], c), Leaf([1], c));
    ForkWf(Leaf([0], c), Leaf([2], c));
    assert v.entries[1] == Some(Leaf([1], c)) && w.entries[1] == None;
    u := if v == t then w else v;
  }

  /** So a node determines its trie exactly when it can be stored. */
  lemma DeterminedIffStorable(h: Doc -> Key, store: Store, n: Node, t: Trie)
    requires Injective(h) && Wf(t) && Rep(h, store, false, n, t)
    ensures Storable(n) <==> forall u :: Wf(u) && Rep(h, store, false, n, u) ==> u == t
  {
    hide Rep, Wf, Storable, Injective, Count;
    if Storable(n) {
      forall u | Wf(u) && Rep(h, store, false, n, u)
        ensures u == t
      {
        RepDetermines(h, store, false, n, t, u);
      }
    } else {
      var u := RepForgets(h, store, n, t);
    }
  }

  /** Whatever was lost, the node still determines every path that does not lead
      through a lost entry. */
  lemma {:induction false} RepAgrees(h: Doc -> Key, store: Store, full: bool, n: Node, t: Trie, u: Trie, p: Path)
    requires Injective(h) && Wf(t) && Wf(u) && Rep(h, store, full, n, t) && Rep(h, store, full, n, u)
    requires forall q :: q <= p ==> !LostAt(n, q)
    ensures Lookup(t, p) == Lookup(u, p)
    decreases t
  {
    hide KeyOf, Kept, Count, Injective, LookupEdge;
    var b := Slot(p);
    assert RepSlot(h, store, full, n.slots[b], t.entries[b]) && RepSlot(h, store, full, n.slots[b], u.entries[b]);
    if n.slots[b].Some? {
      WfSlot(t, b);
      WfSlot(u, b);
      var l, e, f := n.slots[b].value, t.entries[b].value, u.entries[b].value;
      if l.UserLink? {
        LeafLookup(l.path, l.content, p);
      } else if !(l.path <= p) {
        EdgeNeedsPath(e, p);
        EdgeNeedsPath(f, p);
      } else {
        assert e == Branch(l.path, e.sub) && f == Branch(l.path, f.sub);
        BranchLookup(e, p);
        BranchLookup(f, p);
        if l.hash.Some? {
          KeyBinds(h, e.sub, f.sub);
        } else {
          NotLostBelow(n, b, p);
          RepAgrees(h, store, full, l.sub.value, e.sub, f.sub, p[|l.path|..]);
        }
      }
    }
  }

  lemma BranchLookup(e: Edge, p: Path)
    requires e.Branch? && e.path <= p
    ensures LookupEdge(e, p) == Lookup(e.sub, p[|e.path|..])
  {
  }

  lemma NotLostBelow(n: Node, b: nat, p: Path)
    requires b == Slot(p) < |n.slots| && n.slots[b].Some? && n.slots[b].value.SubLink?
    requires var l := n.slots[b].value; l.hash.None? && l.path != [] && l.path <= p
    requires forall q :: q <= p ==> !LostAt(n, q)
    ensures var l := n.slots[b].value; l.sub.Some? && forall q :: q <= p[|l.path|..] ==> !LostAt(l.sub.value, q)
  {
    var l := n.slots[b].value;
    assert Slot(l.path) == b;
    assert !LostAt(n, l.path);
    forall q | q <= p[|l.path|..]
      ensures !LostAt(l.sub.value, q)
    {
      var q' := l.path + q;
      assert q' <= p && q'[|l.path|..] == q && Slot(q') == b;
      assert !LostAt(n, q');
      SubLost(l.path, l.hash, l.sub.value, q');
    }
  }
}
