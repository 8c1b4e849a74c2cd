/** The manifest as it lies in content-addressed storage, and the partly loaded
    trie that a client works on. */
module ManifestStore {
  import opened Bytes
  import opened Manifest
  import opened ManifestTheory

  /** An entry of a stored manifest document. */
  datatype Entry =
    | UserEntry(path: Path, content: Content)
    | SubEntry(path: Path, key: Key)

  type Doc = seq<Entry>
  type Store = map<Key, Doc>

  // ----- what a trie looks like in storage -----

  function EntryOf(h: Doc -> Key, e: Edge): Entry
    decreases e, 0
  {
    match e
    case Leaf(q, c) => UserEntry(q, c)
    case Branch(q, sub) => SubEntry(q, KeyOf(h, sub))
  }

  /** The entries in slots below i, in slot order. */
  function DocUpTo(h: Doc -> Key, t: Trie, i: nat): Doc
    requires i <= |t.entries|
    decreases t, i
  {
    if i == 0 then []
    else DocUpTo(h, t, i - 1) + if t.entries[i - 1].Some? then [EntryOf(h, t.entries[i - 1].value)] else []
  }

  function DocOf(h: Doc -> Key, t: Trie): Doc
    decreases t, |t.entries| + 1
  {
    DocUpTo(h, t, |t.entries|)
  }

  /** The root hash. */
  function KeyOf(h: Doc -> Key, t: Trie): Key
    decreases t, |t.entries| + 2
  {
    h(DocOf(h, t))
  }

  /** The entry a document holds for a slot. */
  function EntryAt(doc: Doc, b: nat): Option<Entry> {
    if doc == [] then None
    else if Slot(doc[|doc| - 1].path) == b then Some(doc[|doc| - 1])
    else EntryAt(doc[..|doc| - 1], b)
  }

  lemma EntryAtSnoc(doc: Doc, x: Entry, b: nat)
    ensures EntryAt(doc + [x], b) == if Slot(x.path) == b then Some(x) else EntryAt(doc, b)
  {
    assert (doc + [x])[..|doc|] == doc;
  }

  lemma EntryAtEmpty(b: nat)
    ensures EntryAt([], b) == None
  {
  }

  function EntryOfSlot(h: Doc -> Key, e: Option<Edge>): Option<Entry> {
    if e.None? then None else Some(EntryOf(h, e.value))
  }

  /** The packed list of entries still tells which slot each one came from. */
  lemma {:induction false} DocSlots(h: Doc -> Key, t: Trie, i: nat, b: nat)
    requires Wf(t) && i <= SLOTS && b < SLOTS
    ensures EntryAt(DocUpTo(h, t, i), b) == if b < i then EntryOfSlot(h, t.entries[b]) else None
  {
    hide Count, EntryAt;
    if i == 0 {
      EntryAtEmpty(b);
    } else {
      DocSlots(h, t, i - 1, b);
      if t.entries[i - 1].Some? {
        WfSlot(t, i - 1);
        EntryAtSnoc(DocUpTo(h, t, i - 1), EntryOf(h, t.entries[i - 1].value), b);
      } else {
        assert DocUpTo(h, t, i) == DocUpTo(h, t, i - 1);
      }
    }
  }

  /** The entries are in the order of their slots: by first byte, and the entry for
      the empty path last. */
  ghost predicate InSlotOrder(doc: Doc) {
    forall i, j :: 0 <= i < j < |doc| ==> Slot(doc[i].path) < Slot(doc[j].path)
  }

  lemma {:induction false} DocOrder(h: Doc -> Key, t: Trie, i: nat)
    requires Wf(t) && i <= SLOTS
    ensures InSlotOrder(DocUpTo(h, t, i))
    ensures forall k :: 0 <= k < |DocUpTo(h, t, i)| ==> Slot(DocUpTo(h, t, i)[k].path) < i
  {
    hide Count;
    if i > 0 {
      DocOrder(h, t, i - 1);
      if t.entries[i - 1].Some? {
        WfSlot(t, i - 1);
      }
    }
  }

  lemma {:induction false} EntryAtIsIn(doc: Doc, b: nat)
    ensures EntryAt(doc, b).Some? ==> exists i :: 0 <= i < |doc| && doc[i] == EntryAt(doc, b).value
    ensures EntryAt(doc, b).Some? ==> Slot(EntryAt(doc, b).value.path) == b
  {
    if doc != [] && Slot(doc[|doc| - 1].path) != b {
      EntryAtIsIn(doc[..|doc| - 1], b);
      if EntryAt(doc, b).Some? {
        var i :| 0 <= i < |doc[..|doc| - 1]| && doc[..|doc| - 1][i] == EntryAt(doc, b).value;
        assert doc[i] == EntryAt(doc, b).value;
      }
    }
  }

  /** The last entry of a document in order has the largest slot. */
  lemma LastSlot(d: Doc, e: Doc)
    requires InSlotOrder(e) && d != [] && forall b: nat :: EntryAt(d, b) == EntryAt(e, b)
    ensures e != [] && Slot(d[|d| - 1].path) <= Slot(e[|e| - 1].path)
  {
    var x := d[|d| - 1];
    assert EntryAt(d, Slot(x.path)) == Some(x);
    EntryAtIsIn(e, Slot(x.path));
  }

  /** A document in order is determined by what it holds for each slot. */
  lemma {:induction false} DocUnique(d: Doc, e: Doc)
    requires InSlotOrder(d) && InSlotOrder(e) && forall b: nat :: EntryAt(d, b) == EntryAt(e, b)
    ensures d == e
    decreases |d|
  {
    if d == [] {
      if e != [] {
        LastSlot(e, d);
      }
    } else {
      LastSlot(d, e);
      LastSlot(e, d);
      var d', e', b := d[..|d| - 1], e[..|e| - 1], Slot(d[|d| - 1].path);
      assert EntryAt(d, b) == EntryAt(e, b);
      forall c: nat
        ensures EntryAt(d', c) == EntryAt(e', c)
      {
        EntryAtIsIn(d', c);
        EntryAtIsIn(e', c);
        assert EntryAt(d, c) == EntryAt(e, c);
      }
      DocUnique(d', e');
      assert d == d' + [d[|d| - 1]] && e == e' + [e[|e| - 1]];
    }
  }

  /** The document of a trie, said without building it. */
  ghost predicate Describes(h: Doc -> Key, doc: Doc, t: Trie) {
    && |t.entries| == SLOTS && InSlotOrder(doc)
    && forall b: nat :: EntryAt(doc, b) == if b < SLOTS then EntryOfSlot(h, t.entries[b]) else None
  }

  lemma DocIff(h: Doc -> Key, doc: Doc, t: Trie)
    requires Wf(t)
    ensures doc == DocOf(h, t) <==> Describes(h, doc, t)
  {
    DocDescribes(h, t);
    hide DocOf, EntryAt, Wf;
    if Describes(h, doc, t) {
      DocUnique(doc, DocOf(h, t));
    }
  }

  lemma DocDescribes(h: Doc -> Key, t: Trie)
    requires Wf(t)
    ensures Describes(h, DocOf(h, t), t)
  {
    hide DocUpTo, EntryAt;
    DocOrder(h, t, SLOTS);
    forall b: nat
      ensures EntryAt(DocOf(h, t), b) == if b < SLOTS then EntryOfSlot(h, t.entries[b]) else None
    {
      if b < SLOTS {
        DocSlots(h, t, SLOTS, b);
      } else {
        EntryAtIsIn(DocOf(h, t), b);
      }
    }
  }

  ghost predicate Injective(h: Doc -> Key) {
    forall d, e :: h(d) == h(e) ==> d == e
  }

  /** The root hash binds the whole trie. */
  lemma {:induction false} KeyBinds(h: Doc -> Key, t: Trie, u: Trie)
    requires Injective(h) && Wf(t) && Wf(u) && KeyOf(h, t) == KeyOf(h, u)
    ensures t == u
    decreases t
  {
    hide Count, EntryAt, DocUpTo;
    forall b | 0 <= b < SLOTS
      ensures t.entries[b] == u.entries[b]
    {
      DocSlots(h, t, SLOTS, b);
      DocSlots(h, u, SLOTS, b);
      if t.entries[b].Some? && t.entries[b].value.Branch? {
        WfSlot(t, b);
        WfSlot(u, b);
        KeyBinds(h, t.entries[b].value.sub, u.entries[b].value.sub);
      }
    }
  }

  /** Two well-formed tries have the same root hash exactly when they stand for
      the same path map, whatever the histories that built them. */
  lemma SameHashIffSameMap(h: Doc -> Key, t: Trie, u: Trie)
    requires Injective(h) && Wf(t) && Wf(u)
    ensures KeyOf(h, t) == KeyOf(h, u) <==> SameMap(t, u)
  {
    if KeyOf(h, t) == KeyOf(h, u) {
      KeyBinds(h, t, u);
    }
    if SameMap(t, u) {
      Canonical(t, u);
    }
  }

  // ----- histories of edits -----

  datatype Edit = Put(path: Path, content: Content) | Drop(path: Path)

  /** An edit is permitted when no two stored paths part at its path. */
  predicate Permitted(t: Trie, edits: seq<Edit>)
    requires Wf(t)
    decreases |edits|
  {
    edits == [] || (!BranchAt(t, edits[0].path) && (EditWf(t, edits[0]); Permitted(Edited(t, edits[0]), edits[1..])))
  }

  function Edited(t: Trie, e: Edit): Trie
    requires Wf(t)
  {
    match e case Put(p, c) => Add(t, p, c) case Drop(p) => Delete(t, p)
  }

  lemma EditWf(t: Trie, e: Edit)
    requires Wf(t)
    ensures Wf(Edited(t, e))
  {
    match e
    case Put(p, c) => AddWf(t, p, c);
    case Drop(p) => DeleteWf(t, p);
  }

  function After(t: Trie, edits: seq<Edit>): (t': Trie)
    requires Wf(t)
    ensures Wf(t')
    decreases |edits|
  {
    if edits == [] then t else EditWf(t, edits[0]); After(Edited(t, edits[0]), edits[1..])
  }

  /** What the edits mean for one path, without any trie. */
  function Meant(edits: seq<Edit>, q: Path, v: Option<Content>): Option<Content> {
    if edits == [] then v
    else if edits[0].path != q then Meant(edits[1..], q, v)
    else Meant(edits[1..], q, if edits[0].Put? then Some(edits[0].content) else None)
  }

  /** A permitted history leaves exactly the path map it means. */
  lemma {:induction false} HistoryLookup(t: Trie, edits: seq<Edit>, q: Path)
    requires Wf(t) && Permitted(t, edits)
    ensures Lookup(After(t, edits), q) == Meant(edits, q, Lookup(t, q))
    decreases |edits|
  {
    hide Lookup, Wf, Add, Delete, BranchAt;
    if edits != [] {
      EditWf(t, edits[0]);
      match edits[0] {
        case Put(p, c) => AddLookup(t, p, c, q);
        case Drop(p) => DeleteLookup(t, p, q);
      }
      HistoryLookup(Edited(t, edits[0]), edits[1..], q);
    }
  }

  /** So any two permitted histories with the same outcome, from any starting
      points, reach the same root hash. */
  lemma HistoriesAgree(h: Doc -> Key, t: Trie, u: Trie, es: seq<Edit>, fs: seq<Edit>)
    requires Wf(t) && Wf(u) && Permitted(t, es) && Permitted(u, fs)
    requires forall q :: Meant(es, q, Lookup(t, q)) == Meant(fs, q, Lookup(u, q))
    ensures KeyOf(h, After(t, es)) == KeyOf(h, After(u, fs))
  {
    hide Lookup, Wf, Permitted, After, Meant;
    forall q
      ensures Lookup(After(t, es), q) == Lookup(After(u, fs), q)
    {
      HistoryLookup(t, es, q);
      HistoryLookup(u, fs, q);
    }
    Canonical(After(t, es), After(u, fs));
  }

  // ----- the partly loaded trie -----

  /** A loaded node; hash is set when the node is known to be stored. */
  datatype Node = Node(slots: seq<Option<Link>>, hash: Option<Key>)

  /** A branch entry has a hash, a loaded subtrie or both. After a failed load it
      has neither. */
  datatype Link =
    | UserLink(path: Path, content: Content)
    | SubLink(path: Path, hash: Option<Key>, sub: Option<Node>)

  ghost predicate Honest(h: Doc -> Key, store: Store) {
    forall k :: k in store ==> h(store[k]) == k
  }

  ghost predicate Extends(s: Store, s': Store) {
    forall k :: k in s ==> k in s' && s'[k] == s[k]
  }

  /** The trie and all its subtries are stored. */
  ghost predicate Kept(h: Doc -> Key, store: Store, t: Trie)
    decreases t
  {
    && KeyOf(h, t) in store && store[KeyOf(h, t)] == DocOf(h, t)
    && forall b :: 0 <= b < |t.entries| && t.entries[b].Some? && t.entries[b].value.Branch? ==>
         Kept(h, store, t.entries[b].value.sub)
  }

  /** The key is the root hash of t and, if full, t can be loaded with it. */
  ghost predicate Names(h: Doc -> Key, store: Store, full: bool, k: Option<Key>, t: Trie) {
    k.Some? ==> k.value == KeyOf(h, t) && (full ==> Kept(h, store, t))
  }

  /** The node in memory stands for the trie t. With full, everything that is not
      loaded can be loaded; without it some manifests may be missing. */
  ghost predicate Rep(h: Doc -> Key, store: Store, full: bool, n: Node, t: Trie)
    decreases t
  {
    && |n.slots| == SLOTS && |t.entries| == SLOTS
    && Names(h, store, full, n.hash, t)
    && forall b :: 0 <= b < SLOTS ==> RepSlot(h, store, full, n.slots[b], t.entries[b])
  }

  ghost predicate RepSlot(h: Doc -> Key, store: Store, full: bool, l: Option<Link>, e: Option<Edge>)
    decreases e
  {
    match (l, e)
    case (None, None) => true
    case (Some(UserLink(p, c)), Some(Leaf(q, d))) => p == q && c == d
    case (Some(SubLink(p, k, n)), Some(Branch(q, sub))) =>
      && p == q
      && Names(h, store, full, k, sub)
      && (n.Some? ==> Rep(h, store, full, n.value, sub))
      && (n.None? && full ==> k.Some?)
    case _ => false
  }

  /** Writing more documents takes nothing away. */
  lemma {:induction false} KeptExtends(h: Doc -> Key, s: Store, s': Store, t: Trie)
    requires Extends(s, s') && Kept(h, s, t)
    ensures Kept(h, s', t)
    decreases t
  {
    hide KeyOf, DocOf;
    forall b | 0 <= b < |t.entries| && t.entries[b].Some? && t.entries[b].value.Branch?
      ensures Kept(h, s', t.entries[b].value.sub)
    {
      KeptExtends(h, s, s', t.entries[b].value.sub);
    }
  }

  lemma {:induction false} RepExtends(h: Doc -> Key, s: Store, s': Store, full: bool, n: Node, t: Trie)
    requires Extends(s, s') && Rep(h, s, full, n, t)
    ensures Rep(h, s', full, n, t)
    decreases t
  {
    hide RepSlot, Kept, KeyOf, Extends;
    if full && n.hash.Some? {
      KeptExtends(h, s, s', t);
    }
    forall b | 0 <= b < SLOTS
      ensures RepSlot(h, s', full, n.slots[b], t.entries[b])
    {
      SlotExtends(h, s, s', full, n.slots[b], t.entries[b]);
    }
  }

  lemma {:induction false} SlotExtends(h: Doc -> Key, s: Store, s': Store, full: bool, l: Option<Link>, e: Option<Edge>)
    requires Extends(s, s') && RepSlot(h, s, full, l, e)
    ensures RepSlot(h, s', full, l, e)
    decreases e
  {
    hide Rep, Kept, KeyOf, Extends;
    if l.Some? && l.value.SubLink? {
      var sub := e.value.sub;
      if full && l.value.hash.Some? {
        KeptExtends(h, s, s', sub);
      }
      if l.value.sub.Some? {
        RepExtends(h, s, s', full, l.value.sub.value, sub);
      }
    }
  }
}
