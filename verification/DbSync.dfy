/** The sync iterator of the disk store: the keys of an address range that were
    stored in a time interval. It walks a snapshot of the index. */
module DbSync {
  import opened Bytes
  import opened DbRecords

  /** DbSyncState */
  datatype SyncState = SyncState(start: Key, stop: Key, first: nat, last: nat)

  /** The records a peer asked for: keys in (start, stop], indexes in [first, last). */
  predicate Wanted(st: SyncState, k: Key, r: Rec) {
    && Less(st.start, k) && !Less(st.stop, k)
    && st.first <= r.idx < st.last
  }

  /** The wanted keys of a listing, in its order. */
  function Due(st: SyncState, index: Index, ks: seq<Key>): seq<Key> {
    if ks == [] then []
    else (if ks[0] in index && Wanted(st, ks[0], index[ks[0]]) then [ks[0]] else []) + Due(st, index, ks[1..])
  }

  lemma {:induction false} DueMembers(st: SyncState, index: Index, ks: seq<Key>, k: Key)
    ensures k in Due(st, index, ks) <==> k in ks && k in index && Wanted(st, k, index[k])
  {
    hide Wanted;
    if ks != [] {
      DueMembers(st, index, ks[1..], k);
      assert ks == [ks[0]] + ks[1..];
    }
  }

  lemma {:induction false} DueAscending(st: SyncState, index: Index, ks: seq<Key>)
    requires Ascending(ks)
    ensures Ascending(Due(st, index, ks))
  {
    hide Wanted, Less;
    if ks != [] {
      DueAscending(st, index, ks[1..]);
      var rest := Due(st, index, ks[1..]);
      forall i | 0 <= i < |rest|
        ensures Less(ks[0], rest[i])
      {
        DueMembers(st, index, ks[1..], rest[i]);
        var j :| 0 <= j < |ks[1..]| && ks[1..][j] == rest[i];
        assert ks[j + 1] == rest[i];
      }
    }
  }

  lemma {:induction false} DueNone(st: SyncState, index: Index, ks: seq<Key>)
    requires forall i :: 0 <= i < |ks| ==> ks[i] in index ==> !Wanted(st, ks[i], index[ks[i]])
    ensures Due(st, index, ks) == []
  {
    hide Wanted;
    if ks != [] {
      forall i | 0 <= i < |ks[1..]|
        ensures ks[1..][i] in index ==> !Wanted(st, ks[1..][i], index[ks[1..][i]])
      {
        assert ks[1..][i] == ks[i + 1];
      }
      DueNone(st, index, ks[1..]);
    }
  }

  lemma {:induction false} DueSkip(st: SyncState, index: Index, ks: seq<Key>, n: nat)
    requires n <= |ks| && forall i :: 0 <= i < n ==> ks[i] in index ==> !Wanted(st, ks[i], index[ks[i]])
    ensures Due(st, index, ks[n..]) == Due(st, index, ks)
  {
    hide Wanted;
    if n > 0 {
      DueSkip(st, index, ks[1..], n - 1);
      assert ks[1..][n - 1..] == ks[n..];
    }
  }

  /** Past the stop key nothing is wanted any more. */
  lemma BeyondStop(st: SyncState, index: Index, ks: seq<Key>)
    requires Ascending(ks) && ks != [] && Less(st.stop, ks[0])
    ensures Due(st, index, ks) == []
  {
    hide Less;
    forall i | 0 <= i < |ks|
      ensures Less(st.stop, ks[i])
    {
      if i > 0 {
        LessTransitive(st.stop, ks[0], ks[i]);
      }
    }
    DueNone(st, index, ks);
  }

  lemma BelowStart(st: SyncState, k: Key, r: Rec)
    ensures !Less(st.start, k) ==> !Wanted(st, k, r)
  {
  }

  lemma AscendingTail(ks: seq<Key>, n: nat)
    requires Ascending(ks) && n <= |ks|
    ensures Ascending(ks[n..])
  {
  }

  /** dbSyncIterator */
  class SyncIterator {
    const state: SyncState
    const index: Index
    const keys: seq<Key>
    var pos: nat

    ghost predicate Valid()
      reads this
    {
      pos <= |keys| && Ascending(keys) && Lists(keys, index.Keys)
    }

    /** The keys still to come. */
    ghost function Rest(): seq<Key>
      reads this
      requires Valid()
    {
      Due(state, index, keys[pos..])
    }

    /** NewSyncIterator on a valid interval: the snapshot, with the cursor at start. */
    constructor (state: SyncState, index: Index)
      ensures Valid() && this.state == state && this.index == index
      ensures Ascending(Rest())
      ensures forall k :: k in Rest() <==> k in index && Wanted(state, k, index[k])
    {
      hide Ascending, Wanted, Less, Due;
      var ks := SortedKeys(index.Keys);
      var p := Seek(ks, state.start);
      this.state, this.index, keys, pos := state, index, ks, p;
      new;
      AllDue(state, index, ks, p);
    }

    /** Next: the wanted keys one after the other, then nothing. */
    method Next() returns (k: Option<Key>)
      requires Valid()
      modifies this
      ensures Valid()
      ensures old(Rest()) == [] ==> k == None && Rest() == []
      ensures old(Rest()) != [] ==> k == Some(old(Rest())[0]) && Rest() == old(Rest())[1..]
    {
      hide Ascending, Wanted, Less, Due, Lists;
      while pos < |keys|
        invariant Valid() && Rest() == old(Rest())
        decreases |keys| - pos
      {
        var key := keys[pos];
        DueStep(state, index, keys, pos);
        if !Less(state.start, key) {
          pos := pos + 1;
          continue;
        }
        if Less(state.stop, key) {
          AscendingTail(keys, pos);
          BeyondStop(state, index, keys[pos..]);
          break;
        }
        var r := index[key];
        pos := pos + 1;
        if state.first <= r.idx && r.idx < state.last {
          return Some(key);
        }
      }
      DueNothing(state, index);
      assert pos == |keys| ==> keys[pos..] == [];
      return None;
    }
  }

  lemma DueNothing(st: SyncState, index: Index)
    ensures Due(st, index, []) == []
  {
  }

  lemma DueStep(st: SyncState, index: Index, ks: seq<Key>, p: nat)
    requires p < |ks| && Lists(ks, index.Keys)
    ensures ks[p] in index
    ensures var w := Less(st.start, ks[p]) && !Less(st.stop, ks[p]) && st.first <= index[ks[p]].idx < st.last;
            Due(st, index, ks[p..]) == (if w then [ks[p]] else []) + Due(st, index, ks[p + 1..])
  {
    hide Less;
    assert ks[p] in ks;
    assert ks[p..][1..] == ks[p + 1..];
  }

  lemma AllDue(st: SyncState, index: Index, ks: seq<Key>, p: nat)
    requires Ascending(ks) && Lists(ks, index.Keys) && p <= |ks|
    requires forall i :: 0 <= i < |ks| ==> (i < p <==> Less(ks[i], st.start))
    ensures Ascending(Due(st, index, ks[p..]))
    ensures forall k :: k in Due(st, index, ks[p..]) <==> k in index && Wanted(st, k, index[k])
  {
    hide Less, Due, Ascending, Wanted;
    AscendingTail(ks, p);
    DueAscending(st, index, ks[p..]);
    forall i | 0 <= i < p
      ensures ks[i] in index ==> !Wanted(st, ks[i], index[ks[i]])
    {
      LessTrichotomy(ks[i], st.start);
      if ks[i] in index {
        BelowStart(st, ks[i], index[ks[i]]);
      }
    }
    DueSkip(st, index, ks, p);
    forall k
      ensures k in Due(st, index, ks[p..]) <==> k in index && Wanted(st, k, index[k])
    {
      DueMembers(st, index, ks, k);
    }
  }

  /** Walking the iterator to its end yields, in ascending order and once each,
      exactly the wanted keys; an interval that ends before it starts is refused. */
  method Walk(st: SyncState, index: Index) returns (ks: Option<seq<Key>>)
    ensures ks.None? <==> st.first > st.last
    ensures ks.Some? ==> Ascending(ks.value) && forall k :: k in ks.value <==> k in index && Wanted(st, k, index[k])
  {
    hide Ascending, Wanted, Less, Due, Lists;
    if st.first > st.last {
      return None;
    }
    var it := new SyncIterator(st, index);
    ghost var all := it.Rest();
    var out := [];
    var k := it.Next();
    while k.Some?
      invariant it.Valid()
      invariant if k.Some? then all == out + [k.value] + it.Rest() else all == out
      decreases |it.Rest()|, k.Some?
    {
      out := out + [k.value];
      k := it.Next();
    }
    ks := Some(out);
  }
}
