/** The records of the disk store: an index record per chunk key, holding the
    storage index of its data record and its access stamp. */
module DbRecords {
  import opened Bytes

  /** dpaDBIndex */
  datatype Rec = Rec(idx: nat, access: nat)

  type Index = map<Key, Rec>
  type Data = map<nat, seq<Byte>>

  // ----- key layout: the two kinds of records cannot get in each other's way -----

  function IndexKey(k: Key): seq<Byte> {
    [0] + k
  }

  function DataKey(idx: nat): seq<Byte>
    requires idx < Pow256(8)
  {
    [1] + BigEndian(idx, 8)
  }

  /** Index keys are ordered as the chunk keys are and come before all data keys
      and all counters; data keys are ordered as the storage indexes are. */
  lemma KeyLayout(k: Key, l: Key, i: nat, j: nat, counter: Byte)
    requires i < Pow256(8) && j < Pow256(8) && 2 <= counter
    ensures Less(IndexKey(k), IndexKey(l)) <==> Less(k, l)
    ensures Less(IndexKey(k), DataKey(i)) && Less(DataKey(i), [counter])
    ensures Less(DataKey(i), DataKey(j)) <==> i < j
    ensures DataKey(i) == DataKey(j) <==> i == j
  {
    LessCons(0, k, 0, l);
    LessCons(0, k, 1, BigEndian(i, 8));
    LessCons(1, BigEndian(i, 8), counter, []);
    LessCons(1, BigEndian(i, 8), 1, BigEndian(j, 8));
    BigEndianOrder(i, j, 8);
    if DataKey(i) == DataKey(j) {
      assert BigEndian(i, 8) == DataKey(i)[1..] == DataKey(j)[1..] == BigEndian(j, 8);
      BigEndianRoundTrip(i, 8);
      BigEndianRoundTrip(j, 8);
    }
  }

  // ----- invariants -----

  /** owner[i] is the key that was stored under storage index i. */
  ghost predicate Linked(index: Index, data: Data, owner: seq<Key>) {
    && (forall k :: k in index ==> index[k].idx < |owner| && owner[index[k].idx] == k)
    && (forall i :: i in data ==> i < |owner| && owner[i] in index && index[owner[i]].idx == i)
  }

  /** No stamp lies ahead of the counter, the counter's own value is held at most
      once, and no stamp is held three times. */
  ghost predicate Stamped(index: Index, now: nat) {
    && (forall k :: k in index ==> index[k].access <= now)
    && (forall k, l :: k in index && l in index && k != l && index[k].access == index[l].access ==> index[k].access < now)
    && (forall k, l, m :: k in index && l in index && m in index && k != l && k != m && l != m ==>
          !(index[k].access == index[l].access == index[m].access))
  }

  /** Every index record has its data record and the data hashes to the key. */
  ghost predicate Hashed(hash: seq<Byte> -> Key, index: Index, data: Data) {
    forall k :: k in index ==> index[k].idx in data && hash(data[index[k].idx]) == k
  }

  /** The chunks that can be read. */
  function Contents(index: Index, data: Data): map<Key, seq<Byte>> {
    map k | k in index && index[k].idx in data :: data[index[k].idx]
  }

  lemma StorageIndexesDistinct(index: Index, data: Data, owner: seq<Key>, k: Key, l: Key)
    requires Linked(index, data, owner) && k in index && l in index
    ensures index[k].idx == index[l].idx <==> k == l
  {
  }

  // ----- one access -----

  function Touch(index: Index, k: Key, now: nat): Index
    requires k in index
  {
    index[k := Rec(index[k].idx, now)]
  }

  lemma TouchKeeps(hash: seq<Byte> -> Key, index: Index, data: Data, owner: seq<Key>, k: Key, now: nat)
    requires Linked(index, data, owner) && Stamped(index, now) && k in index
    ensures Linked(Touch(index, k, now + 1), data, owner)
    ensures Stamped(Touch(index, k, now + 1), now + 1)
    ensures Contents(Touch(index, k, now + 1), data) == Contents(index, data)
    ensures |Touch(index, k, now + 1)| == |index| && Touch(index, k, now + 1).Keys == index.Keys
    ensures Hashed(hash, index, data) ==> Hashed(hash, Touch(index, k, now + 1), data)
  {
    TouchLinked(index, data, owner, k, now + 1);
    TouchStamped(index, k, now);
    TouchContents(index, data, k, now + 1);
    TouchCount(index, k, now + 1);
    TouchHashed(hash, index, data, k, now + 1);
    hide Linked, Stamped, Hashed, Contents, Touch;
  }

  /** The record of k has the given stamp, newer than that of every other record,
      and nothing else has changed. */
  ghost predicate JustUsed(before: Index, after: Index, k: Key, stamp: nat) {
    && after.Keys == before.Keys && k in before && k in after
    && after[k].idx == before[k].idx && after[k].access == stamp
    && forall j :: j in after && j in before && j != k ==> after[j] == before[j] && after[j].access < stamp
  }

  lemma TouchUses(index: Index, k: Key, now: nat)
    requires Stamped(index, now) && k in index
    ensures JustUsed(index, Touch(index, k, now + 1), k, now + 1)
  {
    hide Stamped;
    TouchCount(index, k, now + 1);
    StampsBound(index, now);
    var after := Touch(index, k, now + 1);
    forall j | j in after && j != k
      ensures after[j] == index[j] && after[j].access < now + 1
    {
    }
  }

  lemma StampsBound(index: Index, now: nat)
    requires Stamped(index, now)
    ensures forall k :: k in index ==> index[k].access <= now
  {
  }

  lemma TouchLinked(index: Index, data: Data, owner: seq<Key>, k: Key, v: nat)
    requires Linked(index, data, owner) && k in index
    ensures Linked(Touch(index, k, v), data, owner)
  {
  }

  lemma TouchStamped(index: Index, k: Key, now: nat)
    requires Stamped(index, now) && k in index
    ensures Stamped(Touch(index, k, now + 1), now + 1)
  {
  }

  lemma TouchContents(index: Index, data: Data, k: Key, v: nat)
    requires k in index
    ensures Contents(Touch(index, k, v), data) == Contents(index, data)
  {
  }

  lemma TouchCount(index: Index, k: Key, v: nat)
    requires k in index
    ensures |Touch(index, k, v)| == |index| && Touch(index, k, v).Keys == index.Keys
  {
    var i2 := Touch(index, k, v);
    assert i2.Keys == index.Keys;
    assert |i2| == |i2.Keys| && |index| == |index.Keys|;
  }

  lemma TouchHashed(hash: seq<Byte> -> Key, index: Index, data: Data, k: Key, v: nat)
    requires k in index
    ensures Hashed(hash, index, data) ==> Hashed(hash, Touch(index, k, v), data)
  {
  }

  // ----- a new record -----

  lemma InsertKeeps(hash: seq<Byte> -> Key, index: Index, data: Data, owner: seq<Key>, k: Key, now: nat, bytes: seq<Byte>)
    requires Linked(index, data, owner) && Stamped(index, now) && k !in index
    ensures var i2, d2 := index[k := Rec(|owner|, now)], data[|owner| := bytes];
            && Linked(i2, d2, owner + [k])
            && Stamped(i2, now + 1)
            && |i2| == |index| + 1
            && Contents(i2, d2) == Contents(index, data)[k := bytes]
            && (Hashed(hash, index, data) && hash(bytes) == k ==> Hashed(hash, i2, d2))
  {
    InsertStamped(index, k, now, |owner|);
    InsertLinked(index, data, owner, k, now, bytes);
    InsertContents(index, data, owner, k, now, bytes);
    InsertCount(index, k, Rec(|owner|, now));
    InsertHashed(hash, index, data, owner, k, now, bytes);
    hide Stamped, Linked, Hashed, Contents;
  }

  lemma InsertLinked(index: Index, data: Data, owner: seq<Key>, k: Key, now: nat, bytes: seq<Byte>)
    requires Linked(index, data, owner) && k !in index
    ensures Linked(index[k := Rec(|owner|, now)], data[|owner| := bytes], owner + [k])
  {
    var i2, d2, o2 := index[k := Rec(|owner|, now)], data[|owner| := bytes], owner + [k];
    forall l | l in i2
      ensures i2[l].idx < |o2| && o2[i2[l].idx] == l
    {
    }
    forall i | i in d2
      ensures i < |o2| && o2[i] in i2 && i2[o2[i]].idx == i
    {
      if i != |owner| {
        assert o2[i] == owner[i];
      }
    }
  }

  lemma InsertCount(index: Index, k: Key, r: Rec)
    requires k !in index
    ensures |index[k := r]| == |index| + 1
  {
    var i2 := index[k := r];
    assert i2.Keys == index.Keys + {k};
    assert |i2| == |i2.Keys| && |index| == |index.Keys|;
  }

  lemma InsertHashed(hash: seq<Byte> -> Key, index: Index, data: Data, owner: seq<Key>, k: Key, now: nat, bytes: seq<Byte>)
    requires Linked(index, data, owner) && k !in index
    ensures Hashed(hash, index, data) && hash(bytes) == k ==>
              Hashed(hash, index[k := Rec(|owner|, now)], data[|owner| := bytes])
  {
    var i2, d2 := index[k := Rec(|owner|, now)], data[|owner| := bytes];
    if Hashed(hash, index, data) && hash(bytes) == k {
      forall l | l in i2
        ensures i2[l].idx in d2 && hash(d2[i2[l].idx]) == l
      {
        assert l != k ==> index[l].idx < |owner|;
      }
    }
  }

  lemma InsertStamped(index: Index, k: Key, now: nat, i: nat)
    requires Stamped(index, now) && k !in index
    ensures Stamped(index[k := Rec(i, now)], now + 1)
  {
  }

  lemma InsertContents(index: Index, data: Data, owner: seq<Key>, k: Key, now: nat, bytes: seq<Byte>)
    requires Linked(index, data, owner) && k !in index
    ensures Contents(index[k := Rec(|owner|, now)], data[|owner| := bytes]) == Contents(index, data)[k := bytes]
  {
    var c2 := Contents(index[k := Rec(|owner|, now)], data[|owner| := bytes]);
    var c := Contents(index, data)[k := bytes];
    assert forall l :: l in index ==> index[l].idx < |owner|;
    assert c2.Keys == c.Keys;
    forall l | l in c
      ensures c2[l] == c[l]
    {
    }
  }

  // ----- removal -----

  lemma RemoveKeeps(hash: seq<Byte> -> Key, index: Index, data: Data, owner: seq<Key>, k: Key, now: nat)
    requires Linked(index, data, owner) && Stamped(index, now) && k in index
    ensures var i2, d2 := index - {k}, data - {index[k].idx};
            && Linked(i2, d2, owner)
            && Stamped(i2, now)
            && |i2| == |index| - 1
            && Contents(i2, d2) == Contents(index, data) - {k}
            && (Hashed(hash, index, data) ==> Hashed(hash, i2, d2))
  {
    RemoveStamped(index, k, now);
    RemoveLinked(index, data, owner, k);
    RemoveContents(index, data, owner, k);
    RemoveCount(index, k);
    RemoveHashed(hash, index, data, owner, k);
    hide Stamped, Linked, Hashed, Contents;
  }

  lemma RemoveLinked(index: Index, data: Data, owner: seq<Key>, k: Key)
    requires Linked(index, data, owner) && k in index
    ensures Linked(index - {k}, data - {index[k].idx}, owner)
  {
  }

  lemma RemoveCount(index: Index, k: Key)
    requires k in index
    ensures |index - {k}| == |index| - 1
  {
    var i2 := index - {k};
    assert i2.Keys == index.Keys - {k};
    assert |i2| == |i2.Keys| && |index| == |index.Keys|;
  }

  lemma RemoveHashed(hash: seq<Byte> -> Key, index: Index, data: Data, owner: seq<Key>, k: Key)
    requires Linked(index, data, owner) && k in index
    ensures Hashed(hash, index, data) ==> Hashed(hash, index - {k}, data - {index[k].idx})
  {
    forall l | l in index - {k}
      ensures index[l].idx != index[k].idx
    {
      StorageIndexesDistinct(index, data, owner, k, l);
    }
  }

  lemma RemoveStamped(index: Index, k: Key, now: nat)
    requires Stamped(index, now)
    ensures Stamped(index - {k}, now)
  {
  }

  lemma RemoveContents(index: Index, data: Data, owner: seq<Key>, k: Key)
    requires Linked(index, data, owner) && k in index
    ensures Contents(index - {k}, data - {index[k].idx}) == Contents(index, data) - {k}
  {
    var c2, c := Contents(index - {k}, data - {index[k].idx}), Contents(index, data) - {k};
    assert c2.Keys == c.Keys;
    forall l | l in c
      ensures c2[l] == c[l]
    {
    }
  }

  /** Dropping a corrupt data record leaves its index record behind. */
  lemma DropDataKeeps(index: Index, data: Data, owner: seq<Key>, k: Key)
    requires Linked(index, data, owner) && k in index
    ensures Linked(index, data - {index[k].idx}, owner)
    ensures Contents(index, data - {index[k].idx}) == Contents(index, data) - {k}
  {
    var c2, c := Contents(index, data - {index[k].idx}), Contents(index, data) - {k};
    assert c2.Keys == c.Keys;
    forall l | l in c
      ensures c2[l] == c[l]
    {
    }
  }

  // ----- ascending key listings -----

  ghost predicate Ascending(ks: seq<Key>) {
    forall i, j :: 0 <= i < j < |ks| ==> Less(ks[i], ks[j])
  }

  ghost predicate Lists(ks: seq<Key>, s: set<Key>) {
    && |ks| == |s|
    && forall k :: k in ks <==> k in s
  }

  lemma AscendingDistinct(ks: seq<Key>, i: nat, j: nat)
    requires Ascending(ks) && i < |ks| && j < |ks| && i != j
    ensures ks[i] != ks[j]
  {
    LessTrichotomy(ks[i], ks[j]);
  }

  /** Seek: the first position whose key is not below the given one. */
  method Seek(ks: seq<Key>, k: Key) returns (pos: nat)
    requires Ascending(ks)
    ensures pos <= |ks|
    ensures forall i :: 0 <= i < |ks| ==> (i < pos <==> Less(ks[i], k))
  {
    hide Less;
    pos := 0;
    while pos < |ks| && Less(ks[pos], k)
      invariant pos <= |ks|
      invariant forall i :: 0 <= i < pos ==> Less(ks[i], k)
    {
      pos := pos + 1;
    }
    forall i | pos <= i < |ks|
      ensures !Less(ks[i], k)
    {
      NotBelow(ks, pos, i, k);
    }
  }

  lemma NotBelow(ks: seq<Key>, pos: nat, i: nat, k: Key)
    requires Ascending(ks) && pos <= i < |ks| && !Less(ks[pos], k)
    ensures !Less(ks[i], k)
  {
    if Less(ks[i], k) && pos < i {
      LessTransitive(ks[pos], ks[i], k);
    }
  }

  /** The keys in iteration order, as a database iterator visits them. */
  method SortedKeys(s: set<Key>) returns (ks: seq<Key>)
    ensures Ascending(ks) && Lists(ks, s)
  {
    hide Ascending;
    ks := [];
    var todo := s;
    AscendingEmpty();
    while todo != {}
      invariant todo <= s && Ascending(ks) && Lists(ks, s - todo)
      decreases |todo|
    {
      var k :| k in todo;
      var pos := Seek(ks, k);
      ListsInsert(ks, s - todo, pos, k);
      AscendingInsert(ks, pos, k);
      ks := ks[..pos] + [k] + ks[pos..];
      assert s - (todo - {k}) == (s - todo) + {k};
      todo := todo - {k};
    }
    assert s - {} == s;
  }

  lemma AscendingEmpty()
    ensures Ascending([])
  {
  }

  lemma ListsInsert(ks: seq<Key>, s: set<Key>, pos: nat, k: Key)
    requires Lists(ks, s) && pos <= |ks| && k !in s
    ensures Lists(ks[..pos] + [k] + ks[pos..], s + {k})
  {
    var ls := ks[..pos] + [k] + ks[pos..];
    assert ks == ks[..pos] + ks[pos..];
    forall x
      ensures x in ls <==> x in s + {k}
    {
      assert x in ks <==> x in ks[..pos] || x in ks[pos..];
    }
  }

  lemma AscendingInsert(ks: seq<Key>, pos: nat, k: Key)
    requires Ascending(ks) && k !in ks && pos <= |ks|
    requires forall i :: 0 <= i < |ks| ==> (i < pos <==> Less(ks[i], k))
    ensures Ascending(ks[..pos] + [k] + ks[pos..])
  {
    hide Less;
    var ls := ks[..pos] + [k] + ks[pos..];
    forall i, j | 0 <= i < j < |ls|
      ensures Less(ls[i], ls[j])
    {
      if i == pos {
        LessTrichotomy(k, ks[j - 1]);
      }
    }
  }
}
