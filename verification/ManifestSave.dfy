/** Writing the manifest back and reading from it: recalcAndStore, findPrefixOf
    and listWithPrefix on the partly loaded trie. */
module ManifestSave {
  import opened Bytes
  import opened Manifest
  import opened ManifestStore
  import opened ManifestLost
  import opened ManifestQuery
  import opened ManifestOps

  // ----- recalcAndStore -----

  /** Every subtrie in a slot below i is stored. */
  ghost predicate KeptBelow(h: Doc -> Key, store: Store, t: Trie, i: nat) {
    forall b :: 0 <= b < |t.entries| && b < i && t.entries[b].Some? && t.entries[b].value.Branch? ==>
      Kept(h, store, t.entries[b].value.sub)
  }

  lemma KeptBelowExtends(h: Doc -> Key, s: Store, s': Store, t: Trie, i: nat)
    requires Extends(s, s') && KeptBelow(h, s, t, i)
    ensures KeptBelow(h, s', t, i)
  {
    hide Extends, Kept;
    forall b | 0 <= b < |t.entries| && b < i && t.entries[b].Some? && t.entries[b].value.Branch?
      ensures Kept(h, s', t.entries[b].value.sub)
    {
      KeptExtends(h, s, s', t.entries[b].value.sub);
    }
  }

  /** Storing one more document. */
  lemma StoreDoc(h: Doc -> Key, store: Store, doc: Doc)
    requires Injective(h) && Honest(h, store)
    ensures Honest(h, store[h(doc) := doc]) && Extends(store, store[h(doc) := doc])
  {
  }

  lemma ExtendsTrans(a: Store, b: Store, c: Store)
    requires Extends(a, b) && Extends(b, c)
    ensures Extends(a, c)
  {
  }

  lemma KeptWhole(h: Doc -> Key, store: Store, t: Trie)
    requires KeptBelow(h, store, t, |t.entries|) && KeyOf(h, t) in store && store[KeyOf(h, t)] == DocOf(h, t)
    ensures Kept(h, store, t)
  {
  }

  lemma RepKeep(h: Doc -> Key, store: Store, full: bool, n: Node, t: Trie, b: nat, l: Option<Link>)
    requires Rep(h, store, full, n, t) && b < SLOTS && RepSlot(h, store, full, l, t.entries[b])
    ensures Rep(h, store, full, Node(n.slots[b := l], n.hash), t)
  {
    hide RepSlot, KeyOf, Kept;
  }

  /** Storing the node and everything below it that has changed. It fails exactly
      when it meets an entry that lost its hash in a failed load, where the source
      dereferences a nil subtrie. */
  method RecalcAndStore(h: Doc -> Key, store: Store, n: Node, ghost full: bool, ghost t: Trie)
    returns (n': Node, store': Store, ok: bool)
    requires Injective(h) && Honest(h, store) && Wf(t) && Rep(h, store, full, n, t)
    ensures ok <==> Storable(n)
    ensures full ==> ok
    ensures Honest(h, store') && Extends(store, store')
    ensures Rep(h, store', full, n', t)
    ensures ok ==> n'.hash == Some(KeyOf(h, t)) && (full ==> Kept(h, store', t))
    ensures ok && n.hash.None? ==>
              && n'.hash.Some? && n'.hash.value in store'
              && var doc := store'[n'.hash.value];
                 n'.hash.value == h(doc) && Describes(h, doc, t)
    decreases t
  {
    hide Describes;
    hide Wf, Rep, RepSlot, KeyOf, Injective, Honest, Extends, Count, Kept, KeptBelow, EntryOf, StorableLink;
    n', store', ok := n, store, true;
    if full {
      FullStorable(h, store, n, t);
    }
    RepHash(h, store, full, n, t);
    ExtendsRefl(store);
    if n.hash.Some? {
      return;
    }
    var list: Doc := [];
    NoneKept(h, store, t);
    for i := 0 to SLOTS
      invariant Honest(h, store') && Extends(store, store')
      invariant Rep(h, store', full, n', t) && |n'.slots| == SLOTS == |t.entries| && n'.hash == None
      invariant list == DocUpTo(h, t, i)
      invariant forall b :: i <= b < SLOTS ==> n'.slots[b] == n.slots[b]
      invariant forall b :: 0 <= b < i && n.slots[b].Some? ==> StorableLink(n.slots[b].value)
      invariant full ==> KeptBelow(h, store', t, i)
    {
      RepLinks(h, store', full, n', t, i);
      ghost var s0 := store';
      ExtendsRefl(s0);
      if n'.slots[i].Some? {
        WfSlot(t, i);
        ghost var e := t.entries[i].value;
        var l, x;
        l, store', x, ok := RecalcLink(h, store', n'.slots[i].value, full, e, i);
        ExtendsTrans(store, s0, store');
        RepExtends(h, s0, store', full, n', t);
        RepKeep(h, store', full, n', t, i, Some(l));
        n' := Node(n'.slots[i := Some(l)], None);
        if !ok {
          return;
        }
        list := list + [x];
      }
      if full {
        KeptBelowExtends(h, s0, store', t, i);
        KeptNext(h, store', t, i);
      }
    }
    var key := h(list);
    ghost var s1 := store';
    StoreDoc(h, s1, list);
    store' := store'[key := list];
    ExtendsTrans(store, s1, store');
    RepExtends(h, s1, store', full, n', t);
    n' := n'.(hash := Some(key));
    KeyIs(h, t);
    DocDescribes(h, t);
    if full {
      KeptBelowExtends(h, s1, store', t, SLOTS);
      KeptWhole(h, store', t);
    }
    NamedRep(h, store', full, n', t);
  }

  lemma KeyIs(h: Doc -> Key, t: Trie)
    ensures KeyOf(h, t) == h(DocUpTo(h, t, |t.entries|))
  {
  }

  lemma NamedRep(h: Doc -> Key, store: Store, full: bool, n: Node, t: Trie)
    requires Rep(h, store, full, n.(hash := None), t) && n.hash == Some(KeyOf(h, t)) && (full ==> Kept(h, store, t))
    ensures Rep(h, store, full, n, t)
  {
    hide RepSlot, KeyOf, Kept;
  }

  lemma RepHash(h: Doc -> Key, store: Store, full: bool, n: Node, t: Trie)
    requires Rep(h, store, full, n, t)
    ensures |n.slots| == SLOTS == |t.entries| && Names(h, store, full, n.hash, t)
  {
  }

  lemma ExtendsRefl(s: Store)
    ensures Extends(s, s)
  {
  }

  lemma NoneKept(h: Doc -> Key, store: Store, t: Trie)
    ensures KeptBelow(h, store, t, 0)
  {
  }

  lemma KeptNext(h: Doc -> Key, store: Store, t: Trie, i: nat)
    requires KeptBelow(h, store, t, i) && i < |t.entries|
    requires t.entries[i].Some? && t.entries[i].value.Branch? ==> Kept(h, store, t.entries[i].value.sub)
    ensures KeptBelow(h, store, t, i + 1)
  {
    hide Kept;
  }

  /** One entry: a branch without a hash is stored first. */
  method RecalcLink(h: Doc -> Key, store: Store, l: Link, ghost full: bool, ghost e: Edge, ghost b: nat)
    returns (l': Link, store': Store, x: Entry, ok: bool)
    requires Injective(h) && Honest(h, store) && WfEdge(e, b) && RepSlot(h, store, full, Some(l), Some(e))
    ensures ok <==> StorableLink(l)
    ensures Honest(h, store') && Extends(store, store')
    ensures RepSlot(h, store', full, Some(l'), Some(e))
    ensures ok ==> x == EntryOf(h, e) && (full && e.Branch? ==> Kept(h, store', e.sub))
    decreases e
  {
    hide Wf, Rep, KeyOf, Injective, Honest, Extends, Count, Kept, Storable;
    l', store', ok := l, store, true;
    ExtendsRefl(store);
    match l
    case UserLink(p, c) =>
      x := UserEntry(p, c);
    case SubLink(p, k, sub) =>
      if k.Some? {
        x := SubEntry(p, k.value);
      } else if sub.None? {
        x, ok := SubEntry(p, []), false;
      } else {
        var sub';
        sub', store', ok := RecalcAndStore(h, store, sub.value, full, e.sub);
        if ok {
          l' := SubLink(p, sub'.hash, Some(sub'));
          x := SubEntry(p, sub'.hash.value);
        } else {
          l' := SubLink(p, None, Some(sub'));
          x := SubEntry(p, []);
        }
      }
  }

  /** A full trie that is stored and loaded again by its root hash stands for the
      same paths, and every subtrie can be loaded in turn. */
  method SaveAndReload(h: Doc -> Key, store: Store, n: Node, ghost t: Trie) returns (n': Node, store': Store, k: Key)
    requires Injective(h) && Honest(h, store) && Wf(t) && Rep(h, store, true, n, t)
    ensures k == KeyOf(h, t) && Honest(h, store') && Extends(store, store')
    ensures Rep(h, store', true, n', t)
    ensures forall b :: 0 <= b < SLOTS && n'.slots[b].Some? && n'.slots[b].value.SubLink? ==> n'.slots[b].value.sub.None?
  {
    hide Wf, Rep, RepSlot, KeyOf, Injective, Honest, Extends, Kept, DocUpTo, EntryAt;
    var saved, ok;
    saved, store', ok := RecalcAndStore(h, store, n, true, t);
    k := saved.hash.value;
    KeptIsDoc(h, store', t);
    WfSlots(t);
    DocApart(h, t, SLOTS);
    n' := ReadManifest(store'[k]);
    LoadedRep(h, store', true, n', t);
  }

  lemma KeptIsDoc(h: Doc -> Key, store: Store, t: Trie)
    requires Kept(h, store, t)
    ensures KeyOf(h, t) in store && store[KeyOf(h, t)] == DocOf(h, t)
  {
  }

  // ----- queries -----

  /** findPrefixOf. It loads on the way and changes nothing else; a failed load
      loses that one entry, on the way to the query. */
  method FindPrefixOf(h: Doc -> Key, store: Store, n: Node, p: Path, ghost full: bool, ghost t: Trie)
    returns (n': Node, r: Option<Found>, ok: bool, ghost lost: Option<Path>)
    requires Injective(h) && Honest(h, store) && Wf(t) && Rep(h, store, full, n, t)
    ensures full ==> ok
    ensures Rep(h, store, full, n', t)
    ensures r == if ok then FindPrefix(t, p) else None
    ensures Loses(n, n', lost) && (ok <==> lost.None?) && (lost.Some? ==> [] < lost.value <= p)
    decreases t
  {
    hide Wf, Rep, RepSlot, KeyOf, Injective, Honest, Count, LostAt, LostLink, Loses, LosesLink;
    n', ok, lost := n, true, None;
    LosesNothing(n);
    RepHere(h, store, full, n, t);
    RepLinks(h, store, full, n, t, Slot(p));
    if p == [] || n.slots[Slot(p)].None? {
      if n.slots[256].Some? && n.slots[256].value.UserLink? {
        r := Some(Found(n.slots[256].value.content, 0));
      } else {
        r := None;
      }
      return;
    }
    var b := Slot(p);
    var l := n.slots[b].value;
    ghost var e := t.entries[b].value;
    r := None;
    if l.path <= p {
      LinkContent(h, store, full, l, e);
      match l
      case UserLink(q, c) =>
        r := Some(Found(c, |q|));
      case SubLink(q, _, _) =>
        WfSlot(t, b);
        var l';
        l', ok := LoadSubTrie(h, store, l, full, e.sub);
        lost := if ok then None else Some(q);
        if ok {
          var sub;
          RepOfSub(h, store, full, l', e.sub);
          sub, r, ok, lost := FindPrefixOf(h, store, l'.sub.value, p[|q|..], full, e.sub);
          LinkWithSub(h, store, full, l', sub, e.sub);
          QueryLoses(l, l', sub, lost);
          lost := if lost.Some? then Some(q + lost.value) else None;
          assert p == q + p[|q|..];
          l' := SubLink(l'.path, l'.hash, Some(sub));
          r := Further(r, |q|);
        }
        SlotLoses(n, b, l', n.hash, lost);
        RepKeep(h, store, full, n, t, b, Some(l'));
        n' := Node(n.slots[b := Some(l')], n.hash);
    }
  }

  lemma QueryLoses(l: Link, l1: Link, sub: Node, lost: Option<Path>)
    requires LosesLink(l, l1, None) && l1.SubLink? && l1.sub.Some? && l1.path == l.path
    requires Loses(l1.sub.value, sub, lost) && (lost.Some? ==> lost.value != [])
    ensures LosesLink(l, SubLink(l1.path, l1.hash, Some(sub)), if lost.Some? then Some(l.path + lost.value) else None)
  {
    hide LosesLink, Loses;
    SubLoses(l1, l1.sub.value, sub, l1.hash, lost);
    LosesThen(l, l1, SubLink(l1.path, l1.hash, Some(sub)), if lost.Some? then Some(l.path + lost.value) else None);
  }

  lemma RepHere(h: Doc -> Key, store: Store, full: bool, n: Node, t: Trie)
    requires Rep(h, store, full, n, t)
    ensures |n.slots| == SLOTS
    ensures Here(t) == if n.slots[256].Some? && n.slots[256].value.UserLink?
                       then Some(Found(n.slots[256].value.content, 0)) else None
  {
    hide Kept, KeyOf;
    RepLinks(h, store, full, n, t, 256);
    assert RepSlot(h, store, full, n.slots[256], t.entries[256]);
  }

  lemma LinkContent(h: Doc -> Key, store: Store, full: bool, l: Link, e: Edge)
    requires RepSlot(h, store, full, Some(l), Some(e))
    ensures l.UserLink? ==> e == Leaf(l.path, l.content)
    ensures l.SubLink? ==> e.Branch? && e.path == l.path
  {
  }

  lemma LinkWithSub(h: Doc -> Key, store: Store, full: bool, l: Link, n: Node, sub: Trie)
    requires l.SubLink? && RepSlot(h, store, full, Some(l), Some(Branch(l.path, sub))) && Rep(h, store, full, n, sub)
    ensures RepSlot(h, store, full, Some(SubLink(l.path, l.hash, Some(n))), Some(Branch(l.path, sub)))
  {
  }

  /** What the loop of listWithPrefixInt has still to report from slot i on. */
  function ListRest(t: Trie, prefix: Path, rp: Path, i: nat): seq<Item>
    requires |t.entries| == SLOTS && i <= SLOTS
  {
    if prefix == [] then ListFrom(t, prefix, rp, i)
    else if i == prefix[0] then ListSlot(t, prefix, rp, i) else []
  }

  lemma ListRestStep(t: Trie, prefix: Path, rp: Path, i: nat)
    requires |t.entries| == SLOTS && i < SLOTS && (prefix != [] ==> i == prefix[0])
    ensures ListRest(t, prefix, rp, i) == ListSlot(t, prefix, rp, i) + ListRest(t, prefix, rp, i + 1)
  {
    hide ListSlot;
  }

  lemma ListRestEnds(t: Trie, prefix: Path, rp: Path)
    requires |t.entries| == SLOTS
    ensures prefix == [] ==> ListRest(t, prefix, rp, 0) == List(t, prefix, rp) && ListRest(t, prefix, rp, SLOTS) == []
    ensures prefix != [] ==> ListRest(t, prefix, rp, Slot(prefix)) == List(t, prefix, rp)
                             && ListRest(t, prefix, rp, Slot(prefix) + 1) == []
  {
    hide ListSlot;
  }

  /** listWithPrefixInt. A failed load ends the listing early and loses that one
      entry. */
  method ListInt(h: Doc -> Key, store: Store, n: Node, prefix: Path, rp: Path, ghost full: bool, ghost t: Trie)
    returns (n': Node, items: seq<Item>, ok: bool, ghost lost: Option<Path>)
    requires Injective(h) && Honest(h, store) && Wf(t) && Rep(h, store, full, n, t)
    ensures full ==> ok
    ensures Rep(h, store, full, n', t)
    ensures items <= List(t, prefix, rp)
    ensures ok ==> items == List(t, prefix, rp)
    ensures Loses(n, n', lost) && (ok <==> lost.None?) && (lost.Some? ==> lost.value != [])
    decreases t
  {
    hide Wf, Rep, RepSlot, KeyOf, Injective, Honest, Count, List, ListRest, LostAt, LostLink, Loses, LosesLink;
    n', items, ok, lost := n, [], true, None;
    LosesNothing(n);
    RepHash(h, store, full, n, t);
    var start, stop: nat := 0, 256;
    if prefix != [] {
      start, stop := Slot(prefix), Slot(prefix);
    }
    ListRestEnds(t, prefix, rp);
    for i := start to stop + 1
      invariant Rep(h, store, full, n', t) && |n'.slots| == SLOTS == |t.entries|
      invariant items + ListRest(t, prefix, rp, i) == List(t, prefix, rp)
      invariant ok && lost == None && Loses(n, n', None)
    {
      RepLinks(h, store, full, n', t, i);
      ListRestStep(t, prefix, rp, i);
      if n'.slots[i].Some? {
        var l, more;
        WfSlot(t, i);
        l, more, ok, lost := ListLink(h, store, n'.slots[i].value, prefix, rp, full, t.entries[i].value, i);
        RepKeep(h, store, full, n', t, i, Some(l));
        SlotLoses(n', i, l, n'.hash, lost);
        LosesTrans(n, n', Node(n'.slots[i := Some(l)], n'.hash), lost);
        n' := Node(n'.slots[i := Some(l)], n'.hash);
        ListGrows(items, more, ListEdge(t.entries[i].value, prefix, rp), ListRest(t, prefix, rp, i + 1));
        items := items + more;
        if !ok {
          return;
        }
      }
    }
  }

  lemma ListGrows(xs: seq<Item>, more: seq<Item>, all: seq<Item>, rest: seq<Item>)
    requires more <= all
    ensures xs + more <= xs + (all + rest)
    ensures more == all ==> xs + more + rest == xs + (all + rest)
  {
    assert all == more + all[|more|..];
    assert xs + (all + rest) == xs + more + (all[|more|..] + rest);
  }

  method ListLink(h: Doc -> Key, store: Store, l: Link, prefix: Path, rp: Path, ghost full: bool, ghost e: Edge, ghost b: nat)
    returns (l': Link, items: seq<Item>, ok: bool, ghost lost: Option<Path>)
    requires Injective(h) && Honest(h, store) && WfEdge(e, b) && RepSlot(h, store, full, Some(l), Some(e))
    ensures full ==> ok
    ensures RepSlot(h, store, full, Some(l'), Some(e))
    ensures items <= ListEdge(e, prefix, rp)
    ensures ok ==> items == ListEdge(e, prefix, rp)
    ensures LosesLink(l, l', lost) && (ok <==> lost.None?) && (lost.Some? ==> lost.value != [] && Slot(lost.value) == b)
    decreases e
  {
    hide Wf, Rep, RepSlot, KeyOf, Injective, Honest, Count, List, LostAt, LostLink, Loses, LosesLink;
    l', items, ok, lost := l, [], true, None;
    LosesNoLink(l);
    LinkContent(h, store, full, l, e);
    match l
    case UserLink(q, c) =>
      if prefix <= q {
        items := [Item(rp + q[|prefix|..], c)];
      }
    case SubLink(q, _, _) =>
      var m := Min(|prefix|, |q|);
      if prefix[..m] == q[..m] {
        l', ok := LoadSubTrie(h, store, l, full, e.sub);
        lost := if ok then None else Some(q);
        if ok {
          var sub;
          RepOfSub(h, store, full, l', e.sub);
          sub, items, ok, lost := ListInt(h, store, l'.sub.value, prefix[m..], rp + q[m..], full, e.sub);
          LinkWithSub(h, store, full, l', sub, e.sub);
          QueryLoses(l, l', sub, lost);
          lost := if lost.Some? then Some(q + lost.value) else None;
          l' := SubLink(l'.path, l'.hash, Some(sub));
        }
      }
  }
}
