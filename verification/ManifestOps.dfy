/** The manifest operations on the partly loaded trie. Each one is proved to do
    to the node in memory what the operation on the whole trie does, loading
    subtries on the way. Nodes are values here: an operation returns the node
    that the source leaves in place. */
module ManifestOps {
  import opened Bytes
  import opened Manifest
  import opened ManifestStore
  import opened ManifestLost

  function NoLinks(n: nat): (ls: seq<Option<Link>>)
    ensures |ls| == n && forall i :: 0 <= i < n ==> ls[i] == None
  {
    if n == 0 then [] else NoLinks(n - 1) + [None]
  }

  function EmptyNode(): Node {
    Node(NoLinks(SLOTS), None)
  }

  /** addEntry where the slot is free or holds the same path. */
  function Placed(n: Node, l: Link): Node
    requires |n.slots| == SLOTS
  {
    Node(n.slots[Slot(l.path) := Some(l)], None)
  }

  function Unpacked(x: Option<Entry>): Option<Link> {
    match x
    case None => None
    case Some(UserEntry(p, c)) => Some(UserLink(p, c))
    case Some(SubEntry(p, k)) => Some(SubLink(p, Some(k), None))
  }

  /** No two entries of the document share a slot. */
  ghost predicate Apart(doc: Doc) {
    forall i, j :: 0 <= i < j < |doc| ==> Slot(doc[i].path) != Slot(doc[j].path)
  }

  lemma DocApart(h: Doc -> Key, t: Trie, i: nat)
    requires Wf(t) && i <= SLOTS
    ensures Apart(DocUpTo(h, t, i))
  {
    DocOrder(h, t, i);
    hide Wf;
  }

  /** readManifest: rebuild one node from its document. */
  method ReadManifest(doc: Doc) returns (n: Node)
    requires Apart(doc)
    ensures |n.slots| == SLOTS && n.hash == None
    ensures forall b :: 0 <= b < SLOTS ==> n.slots[b] == Unpacked(EntryAt(doc, b))
  {
    n := EmptyNode();
    for i := 0 to |doc|
      invariant |n.slots| == SLOTS && n.hash == None
      invariant forall b :: 0 <= b < SLOTS ==> n.slots[b] == Unpacked(EntryAt(doc[..i], b))
    {
      assert doc[..i + 1] == doc[..i] + [doc[i]];
      n := Placed(n, Unpacked(Some(doc[i])).value);
      forall b | 0 <= b < SLOTS
        ensures n.slots[b] == Unpacked(EntryAt(doc[..i + 1], b))
      {
        EntryAtSnoc(doc[..i], doc[i], b);
      }
    }
    assert doc[..|doc|] == doc;
  }

  lemma LoadedRep(h: Doc -> Key, store: Store, full: bool, n: Node, t: Trie)
    requires Wf(t) && |n.slots| == SLOTS && n.hash == None && (full ==> Kept(h, store, t))
    requires forall b :: 0 <= b < SLOTS ==> n.slots[b] == Unpacked(EntryAt(DocOf(h, t), b))
    ensures Rep(h, store, full, n, t)
  {
    hide Count, EntryAt, DocUpTo;
    forall b | 0 <= b < SLOTS
      ensures RepSlot(h, store, full, n.slots[b], t.entries[b])
    {
      DocSlots(h, t, SLOTS, b);
      hide DocOf, KeyOf;
    }
  }

  /** loadManifest by root hash: whatever the store returns for the key of t is t. */
  method LoadManifest(h: Doc -> Key, store: Store, k: Key, ghost full: bool, ghost t: Trie) returns (n: Option<Node>)
    requires Injective(h) && Honest(h, store) && Wf(t) && k == KeyOf(h, t) && (full ==> Kept(h, store, t))
    ensures n.Some? <==> k in store
    ensures full ==> n.Some?
    ensures n.Some? ==> Rep(h, store, full, n.value, t) && forall q :: !LostAt(n.value, q)
  {
    hide Count, EntryAt, DocUpTo, EntryOf, Wf, LostAt;
    if k !in store {
      return None;
    }
    assert h(store[k]) == h(DocOf(h, t));
    assert |t.entries| == SLOTS by { WfSlots(t); }
    DocApart(h, t, SLOTS);
    var m := ReadManifest(store[k]);
    LoadedRep(h, store, full, m, t);
    ReadLost(store[k], m);
    n := Some(m);
  }

  lemma ReadLost(doc: Doc, n: Node)
    requires |n.slots| == SLOTS && forall b :: 0 <= b < SLOTS ==> n.slots[b] == Unpacked(EntryAt(doc, b))
    ensures forall q :: !LostAt(n, q)
  {
    hide EntryAt;
    forall q
      ensures !LostAt(n, q)
    {
      FreshLost(n, q);
    }
  }

  lemma WfSlots(t: Trie)
    requires Wf(t)
    ensures |t.entries| == SLOTS
  {
  }

  /** loadSubTrie. The hash is dropped whenever a load is attempted, so after a
      failure the entry has neither hash nor subtrie. */
  method LoadSubTrie(h: Doc -> Key, store: Store, l: Link, ghost full: bool, ghost sub: Trie) returns (l': Link, ok: bool)
    requires Injective(h) && Honest(h, store) && Wf(sub)
    requires l.SubLink? && RepSlot(h, store, full, Some(l), Some(Branch(l.path, sub)))
    ensures l'.SubLink? && l'.path == l.path && RepSlot(h, store, full, Some(l'), Some(Branch(l.path, sub)))
    ensures full ==> ok
    ensures ok <==> l'.sub.Some?
    ensures ok <==> l.sub.Some? || (l.hash.Some? && l.hash.value in store)
    ensures l.sub.None? ==> l'.hash == None
    ensures LosesLink(l, l', if ok then None else Some(l.path))
    ensures !ok ==> !StorableLink(l')
  {
    hide Wf, Rep, KeyOf, Injective, Honest, LostAt;
    if l.sub.Some? {
      LosesNoLink(l);
      return l, true;
    }
    var loaded := None;
    if l.hash.Some? {
      loaded := LoadManifest(h, store, l.hash.value, full, sub);
    }
    l' := SubLink(l.path, None, loaded);
    ok := loaded.Some?;
    KeptStored(h, store, full, sub);
    LoadLoses(l, loaded);
  }

  lemma LoadLoses(l: Link, loaded: Option<Node>)
    requires l.SubLink? && l.sub.None? && (loaded.Some? ==> l.hash.Some? && forall q :: !LostAt(loaded.value, q))
    ensures LosesLink(l, SubLink(l.path, None, loaded), if loaded.Some? then None else Some(l.path))
  {
    hide LostAt;
    forall q
      ensures LostLink(SubLink(l.path, None, loaded), q) <==> (loaded.None? && q == l.path) || LostLink(l, q)
    {
      UnloadedLost(l.path, l.hash, q);
      UnloadedLost(l.path, None, q);
      if loaded.Some? {
        SubLost(l.path, None, loaded.value, q);
      }
    }
  }

  lemma KeptStored(h: Doc -> Key, store: Store, full: bool, t: Trie)
    ensures full && Kept(h, store, t) ==> KeyOf(h, t) in store
  {
  }

  /** Changing one slot on both sides. */
  lemma RepUpdate(h: Doc -> Key, store: Store, full: bool, n: Node, t: Trie, b: nat, l: Option<Link>, e: Option<Edge>)
    requires Rep(h, store, full, n, t) && b < SLOTS && RepSlot(h, store, full, l, e)
    ensures Rep(h, store, full, Node(n.slots[b := l], None), At(t, b, e))
  {
    hide RepSlot, KeyOf, Kept;
  }

  lemma RepDirty(h: Doc -> Key, store: Store, full: bool, n: Node, t: Trie)
    requires Rep(h, store, full, n, t)
    ensures Rep(h, store, full, Node(n.slots, None), t)
  {
    hide RepSlot, KeyOf, Kept;
  }

  /** Moving an entry keeps its hash valid: the hash is that of the subtrie. */
  lemma RelinkRep(h: Doc -> Key, store: Store, full: bool, l: Link, e: Edge, p: Path)
    requires RepSlot(h, store, full, Some(l), Some(e))
    ensures RepSlot(h, store, full, Some(Relinked(l, p)), Some(WithPath(e, p)))
  {
    hide Rep, KeyOf, Kept;
  }

  lemma ForkRep(h: Doc -> Key, store: Store, full: bool, k: Link, l: Link, e: Edge, f: Edge)
    requires RepSlot(h, store, full, Some(k), Some(e)) && RepSlot(h, store, full, Some(l), Some(f))
    requires k.path == e.path && l.path == f.path
    ensures Rep(h, store, full, Placed(Placed(EmptyNode(), k), l), Fork(e, f))
  {
    RepEmpty(h, store, full);
    hide RepSlot, Rep, KeyOf, Kept, EmptyNode, Empty;
    RepUpdate(h, store, full, EmptyNode(), Empty(), Slot(e.path), Some(k), Some(e));
    RepUpdate(h, store, full, Placed(EmptyNode(), k), At(Empty(), Slot(e.path), Some(e)), Slot(f.path), Some(l), Some(f));
  }

  lemma RepEmpty(h: Doc -> Key, store: Store, full: bool)
    ensures Rep(h, store, full, EmptyNode(), Empty())
    ensures |EmptyNode().slots| == SLOTS && |Empty().entries| == SLOTS
  {
  }

  method CommonPrefix(a: Path, b: Path) returns (n: nat)
    ensures n == Cpl(a, b)
  {
    n := 0;
    while n < |a| && n < |b| && a[n] == b[n]
      invariant n <= |a| && n <= |b| && Cpl(a, b) == n + Cpl(a[n..], b[n..])
    {
      assert a[n..][1..] == a[n + 1..] && b[n..][1..] == b[n + 1..];
      n := n + 1;
    }
  }

  lemma RepLinks(h: Doc -> Key, store: Store, full: bool, n: Node, t: Trie, b: nat)
    requires Rep(h, store, full, n, t) && b < SLOTS
    ensures |n.slots| == SLOTS == |t.entries|
    ensures RepSlot(h, store, full, n.slots[b], t.entries[b])
    ensures n.slots[b].Some? <==> t.entries[b].Some?
    ensures n.slots[b].Some? ==> n.slots[b].value.path == t.entries[b].value.path
    ensures n.slots[b].Some? ==> (n.slots[b].value.SubLink? <==> t.entries[b].value.Branch?)
  {
  }

  lemma SubRep(h: Doc -> Key, store: Store, full: bool, p: Path, n: Node, sub: Trie)
    requires Rep(h, store, full, n, sub)
    ensures RepSlot(h, store, full, Some(SubLink(p, None, Some(n))), Some(Branch(p, sub)))
  {
  }

  lemma RepOfSub(h: Doc -> Key, store: Store, full: bool, l: Link, sub: Trie)
    requires l.SubLink? && l.sub.Some? && RepSlot(h, store, full, Some(l), Some(Branch(l.path, sub)))
    ensures Rep(h, store, full, l.sub.value, sub)
  {
  }

  /** addEntry for a user entry. It fails only when a manifest on the way to p
      cannot be loaded. Then exactly the entry of that manifest is lost, the node
      cannot be stored any more, and no other entry is affected. */
  method AddEntry(h: Doc -> Key, store: Store, n: Node, p: Path, c: Content, ghost full: bool, ghost t: Trie)
    returns (n': Node, ok: bool, ghost lost: Path)
    requires Injective(h) && Honest(h, store) && Wf(t) && Rep(h, store, full, n, t)
    ensures full ==> ok
    ensures n'.hash == None
    ensures Rep(h, store, full, n', if ok then Add(t, p, c) else t)
    ensures ok ==> NoneLost(n, n')
    ensures !ok ==> [] < lost < p && Loses(n, n', Some(lost)) && !Storable(n')
    decreases t
  {
    hide Wf, Rep, RepSlot, KeyOf, Injective, Honest, AddBelow, Count, LookupEdge, LostAt, LostLink, Storable, StorableLink,
         LosesLink, NoneLostLink;
    var b := Slot(p);
    RepLinks(h, store, full, n, t, b);
    lost := [];
    if n.slots[b].None? || n.slots[b].value.path == p {
      ok, n' := true, Placed(n, UserLink(p, c));
      UserRep(h, store, full, p, c);
      RepUpdate(h, store, full, n, t, b, Some(UserLink(p, c)), Some(Leaf(p, c)));
      SlotKeeps(n, b, Some(UserLink(p, c)), None);
      return;
    }
    var l := n.slots[b].value;
    ghost var e := t.entries[b].value;
    WfSlot(t, b);
    var l';
    l', ok, lost := AddToLink(h, store, l, p, c, full, e);
    n' := Node(n.slots[b := Some(l')], None);
    RepUpdate(h, store, full, n, t, b, Some(l'), Some(if ok then AddBelow(e, p, c) else e));
    assert t.entries[b := Some(e)] == t.entries;
    if ok {
      SlotKeeps(n, b, Some(l'), None);
    } else {
      SlotLoses(n, b, l', None, Some(lost));
      SlotUnstorable(n, b, l');
    }
  }

  lemma UserRep(h: Doc -> Key, store: Store, full: bool, p: Path, c: Content)
    ensures RepSlot(h, store, full, Some(UserLink(p, c)), Some(Leaf(p, c)))
  {
  }

  /** The slot holds an entry with another path: descend or split. */
  method AddToLink(h: Doc -> Key, store: Store, l: Link, p: Path, c: Content, ghost full: bool, ghost e: Edge)
    returns (l': Link, ok: bool, ghost lost: Path)
    requires Injective(h) && Honest(h, store) && WfEdge(e, Slot(p)) && l.path == e.path != p
    requires l.SubLink? <==> e.Branch?
    requires RepSlot(h, store, full, Some(l), Some(e))
    ensures full ==> ok
    ensures RepSlot(h, store, full, Some(l'), Some(if ok then AddBelow(e, p, c) else e))
    ensures ok ==> NoneLostLink(l, Some(l'))
    ensures !ok ==> [] < lost < p && LosesLink(l, l', Some(lost)) && !StorableLink(l')
    decreases e
  {
    hide Wf, Rep, RepSlot, KeyOf, Injective, Honest, Count, Add, Fork, LostAt, LostLink, Storable, LosesLink, NoneLostLink,
         Loses, NoneLost;
    var n := CommonPrefix(p, l.path);
    CplPrefix(p, l.path);
    lost := [];
    if l.SubLink? && n == |l.path| {
      assert l.path == l.path[..n] == p[..n];
      l', ok := LoadSubTrie(h, store, l, full, e.sub);
      lost := l.path;
      if ok {
        var sub;
        RepOfSub(h, store, full, l', e.sub);
        sub, ok, lost := AddEntry(h, store, l'.sub.value, p[n..], c, full, e.sub);
        DescentLoses(l, l', sub, ok, lost);
        l', lost := SubLink(l'.path, None, Some(sub)), l.path + lost;
        assert !ok ==> p == l.path + p[n..];
        SubRep(h, store, full, l.path, sub, if ok then Add(e.sub, p[n..], c) else e.sub);
      }
    } else {
      ok := true;
      var old', new' := Relinked(l, l.path[n..]), UserLink(p[n..], c);
      var sub := Placed(Placed(EmptyNode(), new'), old');
      SlotsPart(p, l.path);
      SplitLoses(l, p[..n], new', old', sub);
      l' := SubLink(p[..n], None, Some(sub));
      UserRep(h, store, full, p[n..], c);
      RelinkRep(h, store, full, l, e, e.path[n..]);
      ForkRep(h, store, full, new', old', Leaf(p[n..], c), WithPath(e, e.path[n..]));
      SubRep(h, store, full, p[..n], sub, Fork(Leaf(p[n..], c), WithPath(e, e.path[n..])));
    }
  }

  /** What is lost below a loaded entry is lost below the entry. */
  lemma DescentLoses(l: Link, l1: Link, sub: Node, ok: bool, lost: Path)
    requires LosesLink(l, l1, None) && l1.SubLink? && l1.sub.Some? && l1.path == l.path
    requires ok ==> NoneLost(l1.sub.value, sub)
    requires !ok ==> lost != [] && Loses(l1.sub.value, sub, Some(lost)) && !Storable(sub)
    ensures var l2 := SubLink(l1.path, None, Some(sub));
            && (ok ==> NoneLostLink(l, Some(l2)))
            && (!ok ==> LosesLink(l, l2, Some(l.path + lost)) && !StorableLink(l2))
  {
    hide LosesLink, Loses, NoneLost, NoneLostLink, Storable;
    var l2 := SubLink(l1.path, None, Some(sub));
    if ok {
      SubKeeps(l1, l1.sub.value, sub, None);
      KeepsThen(l, l1, Some(l2));
    } else {
      SubLoses(l1, l1.sub.value, sub, None, Some(lost));
      LosesThen(l, l1, l2, Some(l.path + lost));
    }
  }

  /** Splitting an edge loses nothing. */
  lemma SplitLoses(l: Link, pre: Path, new': Link, old': Link, sub: Node)
    requires new'.UserLink? && pre <= l.path && old' == Relinked(l, l.path[|pre|..])
    requires Slot(new'.path) != Slot(old'.path) && sub == Placed(Placed(EmptyNode(), new'), old')
    ensures NoneLostLink(l, Some(SubLink(pre, None, Some(sub))))
  {
    hide LostLink;
    var l' := SubLink(pre, None, Some(sub));
    forall q | LostLink(l', q)
      ensures LostLink(l, q)
    {
      SubLost(pre, None, sub, q);
      var r := q[|pre|..];
      UserNotLost(new', r);
      assert LostLink(old', r);
      assert q == pre + r && l.path == pre + old'.path;
      RelinkLost(old', pre, r);
      assert Relinked(old', pre + old'.path) == l;
    }
  }

  lemma UserNotLost(l: Link, q: Path)
    requires l.UserLink?
    ensures !LostLink(l, q)
  {
  }

  /** getCountLast */
  method GetCountLast(h: Doc -> Key, store: Store, n: Node, ghost full: bool, ghost t: Trie) returns (cnt: nat, last: Option<Link>)
    requires Rep(h, store, full, n, t)
    ensures cnt == Count(t.entries)
    ensures RepSlot(h, store, full, last, Last(t.entries))
    ensures last.Some? <==> Last(t.entries).Some?
    ensures last.Some? ==> last.value.path == Last(t.entries).value.path
    ensures last.Some? ==> exists b :: 0 <= b < |n.slots| && n.slots[b] == last
  {
    hide RepSlot, Count, KeyOf, Kept, Names;
    cnt, last := 0, None;
    CountNone([]);
    LastRep(h, store, full, None, None);
    for i := 0 to SLOTS
      invariant cnt == Count(t.entries[..i])
      invariant RepSlot(h, store, full, last, Last(t.entries[..i]))
      invariant last.Some? ==> exists b :: 0 <= b < |n.slots| && n.slots[b] == last
    {
      assert t.entries[..i + 1][..i] == t.entries[..i];
      CountInit(t.entries[..i + 1]);
      RepLinks(h, store, full, n, t, i);
      if n.slots[i].Some? {
        cnt, last := cnt + 1, n.slots[i];
      }
    }
    assert t.entries[..SLOTS] == t.entries;
    LastRep(h, store, full, last, Last(t.entries));
  }

  lemma LastRep(h: Doc -> Key, store: Store, full: bool, l: Option<Link>, e: Option<Edge>)
    ensures RepSlot(h, store, full, None, None)
    ensures RepSlot(h, store, full, l, e) ==> (l.Some? <==> e.Some?) && (l.Some? ==> l.value.path == e.value.path)
  {
  }

  /** deleteEntry. A failed load has the same cost as in addEntry. */
  method DeleteEntry(h: Doc -> Key, store: Store, n: Node, p: Path, ghost full: bool, ghost t: Trie)
    returns (n': Node, ok: bool, ghost lost: Path)
    requires Injective(h) && Honest(h, store) && Wf(t) && Rep(h, store, full, n, t)
    ensures full ==> ok
    ensures n'.hash == None
    ensures Rep(h, store, full, n', if ok then Delete(t, p) else t)
    ensures ok ==> NoneLost(n, n')
    ensures !ok ==> [] < lost < p && Loses(n, n', Some(lost)) && !Storable(n')
    decreases t
  {
    hide Wf, Rep, RepSlot, KeyOf, Injective, Honest, DeleteBelow, Count, LookupEdge, Last, LostAt, LostLink, Storable,
         StorableLink, LosesLink, NoneLostLink;
    var b := Slot(p);
    ok, lost := true, [];
    RepLinks(h, store, full, n, t, b);
    if n.slots[b].None? {
      n' := Node(n.slots, None);
      RepDirty(h, store, full, n, t);
      assert n.slots[b := None] == n.slots;
      SlotKeeps(n, b, None, None);
      return;
    }
    if n.slots[b].value.path == p {
      n' := Node(n.slots[b := None], None);
      LastRep(h, store, full, None, None);
      RepUpdate(h, store, full, n, t, b, None, None);
      SlotKeeps(n, b, None, None);
      return;
    }
    ghost var e := t.entries[b].value;
    WfSlot(t, b);
    var l;
    l, ok, lost := DeleteFromLink(h, store, n.slots[b].value, p, full, e);
    n' := Node(n.slots[b := l], None);
    RepUpdate(h, store, full, n, t, b, l, if ok then DeleteBelow(e, p) else Some(e));
    assert t.entries[b := Some(e)] == t.entries;
    if ok {
      SlotKeeps(n, b, l, None);
    } else {
      SlotLoses(n, b, l.value, None, Some(lost));
      SlotUnstorable(n, b, l.value);
    }
  }

  method DeleteFromLink(h: Doc -> Key, store: Store, l: Link, p: Path, ghost full: bool, ghost e: Edge)
    returns (l': Option<Link>, ok: bool, ghost lost: Path)
    requires Injective(h) && Honest(h, store) && WfEdge(e, Slot(p)) && l.path == e.path != p
    requires l.SubLink? <==> e.Branch?
    requires RepSlot(h, store, full, Some(l), Some(e))
    ensures full ==> ok
    ensures RepSlot(h, store, full, l', if ok then DeleteBelow(e, p) else Some(e))
    ensures ok ==> NoneLostLink(l, l')
    ensures !ok ==> [] < lost < p && l'.Some? && LosesLink(l, l'.value, Some(lost)) && !StorableLink(l'.value)
    decreases e
  {
    hide Wf, Rep, RepSlot, KeyOf, Injective, Honest, Count, Delete, Last, LostAt, LostLink, Storable, LosesLink, Loses,
         NoneLost;
    l', ok, lost := Some(l), true, [];
    if l.SubLink? && l.path <= p {
      var loaded;
      loaded, ok := LoadSubTrie(h, store, l, full, e.sub);
      l', lost := Some(loaded), l.path;
      if ok {
        var sub;
        RepOfSub(h, store, full, loaded, e.sub);
        sub, ok, lost := DeleteEntry(h, store, loaded.sub.value, p[|l.path|..], full, e.sub);
        DescentLoses(l, loaded, sub, ok, lost);
        lost := l.path + lost;
        assert !ok ==> p == l.path + p[|l.path|..];
        ghost var s := if ok then Delete(e.sub, p[|l.path|..]) else e.sub;
        DeleteWf(e.sub, p[|l.path|..]);
        var cnt, last := GetCountLast(h, store, sub, full, s);
        if cnt < 2 {
          l' := if last.Some? then Some(Relinked(last.value, l.path + last.value.path)) else None;
          if last.Some? {
            RelinkRep(h, store, full, last.value, Last(s.entries).value, l.path + last.value.path);
            CollapseLoses(h, store, full, l, sub, s, last.value);
          } else {
            LastRep(h, store, full, None, None);
          }
        } else {
          l' := Some(SubLink(l.path, None, Some(sub)));
          SubRep(h, store, full, l.path, sub, s);
        }
      }
    }
  }

  /** Collapsing a subtrie to its last entry loses nothing. */
  lemma CollapseLoses(h: Doc -> Key, store: Store, full: bool, l: Link, sub: Node, s: Trie, last: Link)
    requires Wf(s) && Rep(h, store, full, sub, s) && l.SubLink?
    requires exists b :: 0 <= b < |sub.slots| && sub.slots[b] == Some(last)
    requires NoneLostLink(l, Some(SubLink(l.path, None, Some(sub))))
    ensures NoneLostLink(l, Some(Relinked(last, l.path + last.path)))
  {
    hide LostLink, KeyOf, Kept;
    var b :| 0 <= b < |sub.slots| && sub.slots[b] == Some(last);
    RepLinks(h, store, full, sub, s, b);
    WfSlot(s, b);
    hide Rep, RepSlot, Count, Wf;
    forall q | LostLink(Relinked(last, l.path + last.path), q)
      ensures LostLink(l, q)
    {
      LostNeedsPath(Relinked(last, l.path + last.path), q);
      PrefixOfSum(l.path, last.path, q);
      var r := q[|l.path|..];
      RelinkLost(last, l.path, r);
      LostNeedsPath(last, r);
      LostIsBranch(last, r);
      assert Slot(r) == Slot(last.path) == b && r != [];
      assert LostAt(sub, r);
      SubLost(l.path, None, sub, q);
    }
  }

  lemma LostIsBranch(l: Link, q: Path)
    ensures LostLink(l, q) ==> l.SubLink?
  {
  }

  lemma PrefixOfSum(a: Path, b: Path, q: Path)
    requires a + b <= q
    ensures a <= q && q == a + q[|a|..]
  {
    assert a <= a + b;
  }
}
