/** The disk store: DbStore of the source within one session. The database is
    kept as its index records and its data records; DbRecords.KeyLayout shows
    that the byte keys keep the two apart and in order. */
module DbStore {
  import opened Bytes
  import opened GcSelect
  import opened DbRecords
  import opened DbGc

  const GC_ARRAY_SIZE: nat := 10000

  datatype Fetched = Found(bytes: seq<Byte>) | NotFound | NoData | Invalid

  class Store {
    const hash: seq<Byte> -> Key
    var index: Index
    var data: Data
    var entryCnt: nat
    var accessCnt: nat
    var dataIdx: nat
    var capacity: nat
    /** The index record to scan next, None when the scan is to start over. */
    var gcPos: Option<Key>
    const gcArray: array<Item>
    /** The key stored under each storage index handed out so far. */
    ghost var owner: seq<Key>

    ghost predicate Valid()
      reads this
    {
      && entryCnt == |index|
      && dataIdx == |owner|
      && gcArray.Length == GC_ARRAY_SIZE
      && Linked(index, data, owner)
      && Stamped(index, accessCnt)
    }

    ghost predicate Sound()
      reads this
    {
      Hashed(hash, index, data)
    }

    ghost function Chunks(): map<Key, seq<Byte>>
      reads this
    {
      Contents(index, data)
    }

    constructor (hash: seq<Byte> -> Key, capacity: nat)
      ensures Valid() && Sound() && this.hash == hash && this.capacity == capacity
      ensures index == map[] && Chunks() == map[]
      ensures fresh(gcArray)
    {
      this.hash := hash;
      this.capacity := capacity;
      index, data, owner := map[], map[], [];
      entryCnt, accessCnt, dataIdx := 0, 0, 0;
      gcPos := None;
      gcArray := new Item[GC_ARRAY_SIZE](_ => Item(0, 0, []));
    }

    /** tryAccessIdx: a hit takes the next stamp. */
    method TryAccess(k: Key) returns (idx: Option<nat>)
      requires Valid()
      modifies this`index, this`accessCnt
      ensures Valid() && (old(Sound()) ==> Sound())
      ensures idx == if k in old(index) then Some(old(index)[k].idx) else None
      ensures index == if k in old(index) then Touch(old(index), k, old(accessCnt) + 1) else old(index)
      ensures index.Keys == old(index).Keys && Chunks() == old(Chunks())
      ensures accessCnt == old(accessCnt) + if k in old(index) then 1 else 0
      ensures k in old(index) ==> JustUsed(old(index), index, k, old(accessCnt) + 1)
      ensures k !in old(index) ==> index == old(index)
    {
      hide Linked, Stamped, Hashed, Contents, Touch, JustUsed;
      if k !in index {
        return None;
      }
      idx := Some(index[k].idx);
      TouchKeeps(hash, index, data, owner, k, accessCnt);
      TouchUses(index, k, accessCnt);
      accessCnt := accessCnt + 1;
      index := Touch(index, k, accessCnt);
    }

    /** The scan of collectGarbage: as many index records as fit, in key order
        from gcPos on and around the end, none twice. */
    method Scan() returns (gcnt: nat, ghost scanned: seq<Key>, ghost ring: seq<Key>, ghost start: nat)
      requires Valid()
      modifies this`gcPos, gcArray
      ensures gcnt == |scanned| == if entryCnt < GC_ARRAY_SIZE then entryCnt else GC_ARRAY_SIZE
      ensures NoRepeats(scanned) && forall k :: k in scanned ==> k in index
      ensures ScanOf(gcArray[..gcnt], scanned, index)
      ensures Ascending(ring) && Lists(ring, index.Keys) && StartsAt(ring, start, old(gcPos))
      ensures scanned == Rotation(ring, start)[..gcnt]
      ensures gcPos == NextPos(ring, start, gcnt)
    {
      hide Linked, Stamped, Ascending, Lists, Less, ScanOf, Rotation, NoRepeats, StartsAt;
      var ks := SortedKeys(index.Keys);
      var pos := |ks|;
      if gcPos.Some? {
        pos := Seek(ks, gcPos.value);
      }
      StartsSeek(ks, pos, gcPos);
      ghost var s := pos;
      ghost var r := Rotation(ks, s);
      ListsCount(ks, index.Keys);
      RotationDistinct(ks, s);
      gcnt := 0;
      ScanEmpty(gcArray[..0], r, index);
      while gcnt < GC_ARRAY_SIZE && gcnt < entryCnt
        invariant gcnt <= GC_ARRAY_SIZE && gcnt <= entryCnt == |ks|
        invariant pos == if s + gcnt <= |ks| then s + gcnt else s + gcnt - |ks|
        invariant ScanOf(gcArray[..gcnt], r[..gcnt], index)
        modifies gcArray
      {
        if pos == |ks| {
          pos := 0;
        }
        var k := ks[pos];
        RotationAt(ks, s, gcnt);
        RotationMembers(ks, s, index.Keys, gcnt);
        ghost var before := gcArray[..gcnt];
        gcArray[gcnt] := Item(index[k].idx, index[k].access, k);
        assert gcArray[..gcnt + 1] == before + [gcArray[gcnt]];
        ScanNext(before, r, index, gcArray[gcnt]);
        gcnt, pos := gcnt + 1, pos + 1;
      }
      gcPos := if pos < |ks| then Some(ks[pos]) else None;
      scanned, ring, start := r[..gcnt], ks, s;
      RotationPart(ks, s, index.Keys, gcnt);
    }

    method RemoveRecord(k: Key, idx: nat)
      requires k in index && entryCnt == |index|
      modifies this`index, this`data, this`entryCnt
      ensures index == old(index) - {k} && data == old(data) - {idx}
      ensures entryCnt == |index|
    {
      RemoveCount(index, k);
      index, data := index - {k}, data - {idx};
      entryCnt := entryCnt - 1;
    }

    /** The removal loop of collectGarbage. */
    method Sweep(gcnt: nat, cut: nat, ghost items: seq<Item>)
      requires Linked(index, data, owner) && Stamped(index, accessCnt) && entryCnt == |index|
      requires gcnt <= gcArray.Length && items == gcArray[..gcnt] && Faithful(items, index) && Distinct(items)
      modifies this`index, this`data, this`entryCnt
      ensures Swept(hash, old(index), old(data), index, data, owner, accessCnt, Cut(items, cut))
      ensures entryCnt == |index|
    {
      hide *;
      ghost var i0, d0 := index, data;
      SweptStart(hash, i0, d0, owner, accessCnt, items, cut);
      for i := 0 to gcnt
        invariant Swept(hash, i0, d0, index, data, owner, accessCnt, Cut(items[..i], cut))
        invariant entryCnt == |index|
      {
        SweptNext(hash, i0, d0, index, data, owner, accessCnt, items, cut, i);
        assert gcArray[i] == items[i];
        if gcArray[i].value <= cut {
          RemoveRecord(gcArray[i].key, gcArray[i].idx);
        }
      }
      assert items[..gcnt] == items;
    }

    /** The first half of collectGarbage: scan and find the cut. */
    method FindCut(ratio: real) returns (gcnt: nat, cutidx: nat, beyond: bool, ghost scanned: seq<Key>)
      requires Valid() && entryCnt >= 1 && 0.0 <= ratio <= 1.0
      modifies this`gcPos, gcArray
      ensures cutidx < gcnt == |scanned| == if entryCnt < GC_ARRAY_SIZE then entryCnt else GC_ARRAY_SIZE
      ensures beyond ==> ratio == 1.0 && gcnt >= 2
      ensures Faithful(gcArray[..gcnt], index) && Distinct(gcArray[..gcnt])
      ensures Collected(index, scanned, Cut(gcArray[..gcnt], gcArray[cutidx].value), Rank(gcnt, ratio))
    {
      hide Linked, Stamped, Faithful, Distinct, Cut, Collected, ScanOf, NoRepeats, Placed, Rearranged, Ascending, Lists,
           Rotation, StartsAt, NextPos, Target;
      ghost var ring, start;
      gcnt, scanned, ring, start := Scan();
      ghost var s := gcArray[..];
      TargetInRange(gcnt, ratio);
      cutidx, beyond := Select(gcArray, 0, gcnt - 1, Target(gcnt, ratio));
      SelectedPrefix(s, gcArray[..], cutidx, gcnt);
      CutCollects(s[..gcnt], gcArray[..gcnt], scanned, index, accessCnt, cutidx);
    }

    /** collectGarbage. The pass scans what fits and removes, of the scanned
        records, those no newer than the one of target rank. At ratio 1 the
        selection may leave the scanned items; the pass is not followed further
        then. */
    method CollectGarbage(ratio: real) returns (beyond: bool, ghost scanned: seq<Key>, ghost removed: set<Key>)
      requires Valid() && entryCnt >= 1 && 0.0 <= ratio <= 1.0
      modifies this`index, this`data, this`entryCnt, this`gcPos, gcArray
      ensures Valid() && (old(Sound()) ==> Sound())
      ensures |scanned| == if old(entryCnt) < 10000 then old(entryCnt) else 10000
      ensures beyond ==> ratio == 1.0 && old(entryCnt) >= 2
      ensures !beyond ==> Collected(old(index), scanned, removed, Rank(|scanned|, ratio))
      ensures !beyond ==> index == old(index) - removed && Chunks() == old(Chunks()) - removed
      ensures !beyond ==> entryCnt == old(entryCnt) - |removed| && entryCnt < old(entryCnt)
    {
      hide Linked, Stamped, Hashed, Contents, Faithful, Distinct, Cut, Collected, Rank, Swept;
      var gcnt, cutidx;
      gcnt, cutidx, beyond, scanned := FindCut(ratio);
      removed := {};
      if beyond {
        return;
      }
      removed := Cut(gcArray[..gcnt], gcArray[cutidx].value);
      CollectedSome(index, scanned, removed, gcnt, ratio);
      Sweep(gcnt, gcArray[cutidx].value, gcArray[..gcnt]);
      SweptEnd(hash, old(index), old(data), index, data, owner, accessCnt, removed);
    }

    /** The batch that adds a new chunk. */
    method Insert(k: Key, bytes: seq<Byte>)
      requires Valid() && k !in index
      modifies this`index, this`data, this`entryCnt, this`accessCnt, this`dataIdx, this`owner
      ensures Valid() && (old(Sound()) && hash(bytes) == k ==> Sound())
      ensures index == old(index)[k := Rec(old(dataIdx), old(accessCnt))]
      ensures Chunks() == old(Chunks())[k := bytes]
      ensures entryCnt == old(entryCnt) + 1 && dataIdx == old(dataIdx) + 1 && accessCnt == old(accessCnt) + 1
      ensures owner == old(owner) + [k]
    {
      hide Linked, Stamped, Hashed, Contents;
      InsertKeeps(hash, index, data, owner, k, accessCnt, bytes);
      data := data[dataIdx := bytes];
      index := index[k := Rec(dataIdx, accessCnt)];
      owner := owner + [k];
      entryCnt, dataIdx, accessCnt := entryCnt + 1, dataIdx + 1, accessCnt + 1;
    }

    method MakeRoom() returns (ghost scanned: seq<Key>, ghost removed: set<Key>)
      requires Valid() && 1 <= capacity
      modifies this`index, this`data, this`entryCnt, this`gcPos, gcArray
      ensures Valid() && (old(Sound()) ==> Sound())
      ensures index == old(index) - removed && Chunks() == old(Chunks()) - removed
      ensures entryCnt <= old(entryCnt) && (old(entryCnt) <= capacity ==> entryCnt < capacity)
      ensures old(entryCnt) < capacity ==> removed == {}
      ensures old(entryCnt) >= capacity ==> Collected(old(index), scanned, removed, Rank(|scanned|, FREE_RATIO))
    {
      hide Linked, Stamped, Hashed, Contents, Collected, Rank;
      scanned, removed := [], {};
      if entryCnt >= capacity {
        var beyond;
        beyond, scanned, removed := CollectGarbage(FREE_RATIO);
      } else {
        MinusNothing(index);
        MinusNothing(Chunks());
      }
    }

    /** Put. A key that is already there only gets a new stamp, even if its data
        was dropped as corrupt: then the chunk stays unreadable. At capacity one
        collection pass makes room first. */
    method Put(k: Key, bytes: seq<Byte>) returns (ghost scanned: seq<Key>, ghost removed: set<Key>)
      requires Valid() && 1 <= capacity && entryCnt <= capacity
      modifies this`index, this`data, this`entryCnt, this`accessCnt, this`dataIdx, this`owner, this`gcPos, gcArray
      ensures Valid() && entryCnt <= capacity && k in index
      ensures old(Sound()) && hash(bytes) == k ==> Sound()
      ensures k in old(index) ==>
                removed == {} && index.Keys == old(index).Keys && Chunks() == old(Chunks()) && dataIdx == old(dataIdx)
      ensures k in old(index) ==> JustUsed(old(index), index, k, old(accessCnt) + 1) && accessCnt == old(accessCnt) + 1
      ensures k in Chunks() <==> k !in old(index) || k in old(Chunks())
      ensures k !in old(index) ==>
                && index == (old(index) - removed)[k := Rec(old(dataIdx), old(accessCnt))]
                && Chunks() == (old(Chunks()) - removed)[k := bytes]
                && dataIdx == old(dataIdx) + 1 && accessCnt == old(accessCnt) + 1
      ensures k !in old(index) && old(entryCnt) < capacity ==> removed == {}
      ensures k !in old(index) && old(entryCnt) == capacity ==>
                Collected(old(index), scanned, removed, Rank(|scanned|, FREE_RATIO))
    {
      hide Linked, Stamped, Hashed, Contents, Collected, Rank, Touch, JustUsed;
      scanned, removed := [], {};
      var found := TryAccess(k);
      if found.Some? {
        return;
      }
      scanned, removed := MakeRoom();
      Insert(k, bytes);
    }

    /** Get. Data that does not hash to its key is dropped, its index record stays. */
    method Get(k: Key) returns (r: Fetched)
      requires Valid()
      modifies this`index, this`accessCnt, this`data
      ensures Valid() && index.Keys == old(index).Keys && entryCnt == old(entryCnt)
      ensures r == NotFound <==> k !in old(index)
      ensures r == NoData <==> k in old(index) && k !in old(Chunks())
      ensures r == Invalid <==> k in old(Chunks()) && hash(old(Chunks())[k]) != k
      ensures r.Found? ==> k in old(Chunks()) && r.bytes == old(Chunks())[k] && hash(r.bytes) == k
      ensures Chunks() == if r == Invalid then old(Chunks()) - {k} else old(Chunks())
      ensures old(Sound()) ==> Sound() && (r.Found? <==> k in old(index))
      ensures k in old(index) ==> JustUsed(old(index), index, k, old(accessCnt) + 1) && accessCnt == old(accessCnt) + 1
      ensures k !in old(index) ==> index == old(index) && accessCnt == old(accessCnt)
    {
      hide Linked, Stamped, JustUsed;
      var found := TryAccess(k);
      if found.None? {
        return NotFound;
      }
      var idx := found.value;
      assert index[k].idx == idx;
      if idx !in data {
        return NoData;
      }
      assert k in Chunks() && Chunks()[k] == data[idx];
      if hash(data[idx]) != k {
        DropDataKeeps(index, data, owner, k);
        data := data - {idx};
        return Invalid;
      }
      r := Found(data[idx]);
    }

    /** setCapacity: collects until the entries fit, and no longer: before the last
        pass there were more than c, and the pass is bounded by its rank. Only for a new capacity of at
        most a hundredth of at least two entries can a pass go beyond its scan. */
    method SetCapacity(c: nat) returns (done: bool, ghost last: nat)
      requires Valid()
      modifies this`capacity, this`index, this`data, this`entryCnt, this`gcPos, gcArray
      ensures Valid() && (old(Sound()) ==> Sound()) && capacity == c
      ensures !done ==> old(entryCnt) > c && old(entryCnt) >= 100 * c && old(entryCnt) >= 2
      ensures done ==> entryCnt <= c
      ensures done && old(entryCnt) > c ==>
                && c < last <= old(entryCnt)
                && entryCnt + Rank(if last < 10000 then last else 10000, ShrinkRatio(c, old(entryCnt))) + 2 >= last
      ensures old(entryCnt) <= c ==> done && index == old(index) && Chunks() == old(Chunks())
      ensures done ==> index.Keys <= old(index).Keys && Chunks().Keys <= old(Chunks()).Keys
      ensures done ==> forall k :: k in index ==> index[k] == old(index)[k]
      ensures done ==> forall k :: k in Chunks() ==> Chunks()[k] == old(Chunks())[k]
    {
      hide Linked, Stamped, Hashed, Contents, Collected, Rank;
      capacity := c;
      last := entryCnt;
      if entryCnt > c {
        ShrinkTargetIff(c, entryCnt, entryCnt);
        var ratio := ShrinkRatio(c, entryCnt);
        hide ShrinkRatio;
        while entryCnt > c
          invariant entryCnt <= c ==> entryCnt < old(entryCnt)
          invariant Valid() && (old(Sound()) ==> Sound()) && capacity == c && entryCnt <= old(entryCnt)
          invariant index.Keys <= old(index).Keys && Chunks().Keys <= old(Chunks()).Keys
          invariant forall k :: k in index ==> index[k] == old(index)[k]
          invariant forall k :: k in Chunks() ==> Chunks()[k] == old(Chunks())[k]
          invariant c < last <= old(entryCnt)
          invariant entryCnt < old(entryCnt) ==>
                      entryCnt + Rank(if last < 10000 then last else 10000, ratio) + 2 >= last
          decreases entryCnt
        {
          ghost var scanned, removed;
          var beyond;
          last := entryCnt;
          ghost var i0 := index;
          beyond, scanned, removed := CollectGarbage(ratio);
          if beyond {
            return false, last;
          }
          CollectedMost(i0, scanned, removed, |scanned|, ratio);
        }
      }
      done := true;
    }
  }

  lemma CollectedSome(index: Index, scanned: seq<Key>, removed: set<Key>, count: nat, ratio: real)
    requires Collected(index, scanned, removed, Rank(count, ratio)) && count >= 1 && 0.0 <= ratio
    ensures |removed| >= 1
  {
    TargetInRange(count, ratio);
  }

  lemma CollectedMost(index: Index, scanned: seq<Key>, removed: set<Key>, count: nat, ratio: real)
    requires Collected(index, scanned, removed, Rank(count, ratio))
    ensures |removed| <= Rank(count, ratio) + 2
  {
    hide Rank, NoRepeats;
  }

  /** The records as they were, with some taken out. */
  ghost predicate Swept(hash: seq<Byte> -> Key, i0: Index, d0: Data, i: Index, d: Data, owner: seq<Key>, now: nat,
                        removed: set<Key>)
  {
    && Linked(i, d, owner) && Stamped(i, now)
    && i == i0 - removed && Contents(i, d) == Contents(i0, d0) - removed
    && |i| == |i0| - |removed|
    && (forall k :: k in i ==> i[k] == i0[k])
    && (Hashed(hash, i0, d0) ==> Hashed(hash, i, d))
  }

  lemma SweptStart(hash: seq<Byte> -> Key, i0: Index, d0: Data, owner: seq<Key>, now: nat, items: seq<Item>, cut: nat)
    requires Linked(i0, d0, owner) && Stamped(i0, now)
    ensures Swept(hash, i0, d0, i0, d0, owner, now, Cut(items[..0], cut))
  {
    hide Linked, Stamped, Hashed, Contents;
    assert i0 - {} == i0 && Contents(i0, d0) - {} == Contents(i0, d0);
    assert Cut(items[..0], cut) == {};
  }

  /** One round of the removal loop. */
  lemma SweptNext(hash: seq<Byte> -> Key, i0: Index, d0: Data, i: Index, d: Data, owner: seq<Key>, now: nat,
                  items: seq<Item>, cut: nat, m: nat)
    requires m < |items| && Faithful(items, i0) && Distinct(items)
    requires Swept(hash, i0, d0, i, d, owner, now, Cut(items[..m], cut))
    ensures var x := items[m];
            if x.value <= cut then
              x.key in i && Swept(hash, i0, d0, i - {x.key}, d - {x.idx}, owner, now, Cut(items[..m + 1], cut))
            else Swept(hash, i0, d0, i, d, owner, now, Cut(items[..m + 1], cut))
  {
    hide Swept, Cut, Distinct, Faithful;
    CutStep(items, cut, m);
    CutFresh(items, cut, m);
    FaithfulAt(items, i0, m);
    if items[m].value <= cut {
      SweptStep(hash, i0, d0, i, d, owner, now, Cut(items[..m], cut), items[m].key);
    } else {
      assert Cut(items[..m + 1], cut) == Cut(items[..m], cut);
    }
  }

  lemma SweptStep(hash: seq<Byte> -> Key, i0: Index, d0: Data, i: Index, d: Data, owner: seq<Key>, now: nat,
                  removed: set<Key>, k: Key)
    requires Swept(hash, i0, d0, i, d, owner, now, removed) && k in i0 && k !in removed
    ensures k in i && i[k] == i0[k]
    ensures Swept(hash, i0, d0, i - {k}, d - {i0[k].idx}, owner, now, removed + {k})
  {
    hide Linked, Stamped, Hashed, Contents;
    RemoveKeeps(hash, i, d, owner, k, now);
    MinusMore(i0, removed, k);
    MinusMore(Contents(i0, d0), removed, k);
  }

  lemma SweptEnd(hash: seq<Byte> -> Key, i0: Index, d0: Data, i: Index, d: Data, owner: seq<Key>, now: nat, removed: set<Key>)
    requires Swept(hash, i0, d0, i, d, owner, now, removed)
    ensures Linked(i, d, owner) && Stamped(i, now)
    ensures i == i0 - removed && Contents(i, d) == Contents(i0, d0) - removed && |i| == |i0| - |removed|
    ensures Hashed(hash, i0, d0) ==> Hashed(hash, i, d)
  {
  }

  lemma MinusNothing<V>(m: map<Key, V>)
    ensures m - {} == m
  {
  }

  lemma MinusMore<V>(m: map<Key, V>, s: set<Key>, k: Key)
    ensures m - s - {k} == m - (s + {k})
  {
  }

  /** The scan starts at the first key not below the saved position. */
  ghost predicate StartsAt(ring: seq<Key>, start: nat, pos: Option<Key>) {
    && start <= |ring|
    && (pos.None? ==> start == |ring|)
    && (pos.Some? ==> forall i :: 0 <= i < |ring| ==> (i < start <==> Less(ring[i], pos.value)))
  }

  lemma StartsSeek(ring: seq<Key>, start: nat, pos: Option<Key>)
    requires start <= |ring| && (pos.None? ==> start == |ring|)
    requires pos.Some? ==> forall i :: 0 <= i < |ring| ==> (i < start <==> Less(ring[i], pos.value))
    ensures StartsAt(ring, start, pos)
  {
  }

  /** The key after the last one scanned; None past the end. */
  function NextPos(ring: seq<Key>, start: nat, gcnt: nat): Option<Key>
    requires start <= |ring| && gcnt <= |ring|
  {
    var pos := if start + gcnt <= |ring| then start + gcnt else start + gcnt - |ring|;
    if pos < |ring| then Some(ring[pos]) else None
  }

  lemma ScanEmpty(items: seq<Item>, keys: seq<Key>, index: Index)
    requires items == []
    ensures ScanOf(items, keys[..0], index)
  {
  }

  lemma ScanNext(items: seq<Item>, keys: seq<Key>, index: Index, x: Item)
    requires |items| < |keys| && ScanOf(items, keys[..|items|], index)
    requires x.key == keys[|items|] && x.key in index && index[x.key] == Rec(x.idx, x.value)
    ensures ScanOf(items + [x], keys[..|items| + 1], index)
  {
  }

  lemma RotationAt(ks: seq<Key>, s: nat, i: nat)
    requires s <= |ks| && i < |ks|
    ensures Rotation(ks, s)[i] == ks[if s + i < |ks| then s + i else s + i - |ks|]
  {
  }

  lemma ListsCount(ks: seq<Key>, s: set<Key>)
    requires Lists(ks, s)
    ensures |ks| == |s|
  {
  }

  lemma RotationPart(ks: seq<Key>, s: nat, keys: set<Key>, n: nat)
    requires s <= |ks| && n <= |ks| && Lists(ks, keys) && NoRepeats(Rotation(ks, s))
    ensures NoRepeats(Rotation(ks, s)[..n])
    ensures forall k :: k in Rotation(ks, s)[..n] ==> k in keys
  {
    forall k | k in Rotation(ks, s)[..n]
      ensures k in keys
    {
      var i :| 0 <= i < n && Rotation(ks, s)[i] == k;
      RotationMembers(ks, s, keys, i);
    }
  }
}
