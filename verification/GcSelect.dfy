/** The quickselect that the garbage collector uses to find the n-th oldest of
    the records it scanned. It works in place on the scan buffer. */
module GcSelect {
  import opened Bytes

  datatype Item = Item(idx: nat, value: nat, key: Key)

  lemma SwapKeepsItems(s: seq<Item>, i: nat, j: nat)
    requires i < |s| && j < |s|
    ensures multiset(s[i := s[j]][j := s[i]]) == multiset(s)
  {
  }

  function Swapped(s: seq<Item>, i: nat, j: nat): (t: seq<Item>)
    requires i < |s| && j < |s|
    ensures |t| == |s|
  {
    s[i := s[j]][j := s[i]]
  }

  method Swap(a: array<Item>, i: nat, j: nat)
    requires i < a.Length && j < a.Length
    modifies a
    ensures a[..] == Swapped(old(a[..]), i, j)
  {
    a[i], a[j] := a[j], a[i];
    assert a[..] == Swapped(old(a[..]), i, j);
  }

  /** The same items, and only the range from left to right may differ. */
  ghost predicate Rearranged(s: seq<Item>, t: seq<Item>, left: int, right: int) {
    && |s| == |t|
    && multiset(s) == multiset(t)
    && forall i :: 0 <= i < |s| && !(left <= i <= right) ==> s[i] == t[i]
  }

  lemma RearrangedSwap(s: seq<Item>, t: seq<Item>, i: nat, j: nat, left: nat, right: nat)
    requires Rearranged(s, t, left, right) && left <= i <= right < |t| && left <= j <= right
    ensures Rearranged(s, Swapped(t, i, j), left, right)
  {
    SwapKeepsItems(t, i, j);
  }

  lemma RearrangedTrans(s: seq<Item>, t: seq<Item>, u: seq<Item>, left: int, right: int, l: int, r: int)
    requires Rearranged(s, t, left, right) && Rearranged(t, u, l, r) && left <= l && r <= right
    ensures Rearranged(s, u, left, right)
  {
  }

  lemma RearrangedRefl(s: seq<Item>, left: int, right: int)
    ensures Rearranged(s, s, left, right)
  {
  }

  /** The n-th place of the range is right: nothing newer before it, nothing
      older after it. */
  ghost predicate Placed(s: seq<Item>, left: int, n: int, right: int) {
    && 0 <= left <= n <= right < |s|
    && (forall i :: left <= i < n ==> s[i].value <= s[n].value)
    && (forall i :: n < i <= right ==> s[i].value >= s[n].value)
  }

  /** State of the partition loop. */
  ghost predicate Parted(s: seq<Item>, left: nat, store: nat, i: nat, right: nat, p: Item) {
    && left <= store <= i <= right < |s| && s[right] == p
    && (forall k :: left <= k < store ==> s[k].value < p.value)
    && (forall k :: store <= k < i ==> s[k].value >= p.value)
  }

  lemma PartedMove(s: seq<Item>, left: nat, store: nat, i: nat, right: nat, p: Item)
    requires Parted(s, left, store, i, right, p) && i < right && s[i].value < p.value
    ensures Parted(Swapped(s, store, i), left, store + 1, i + 1, right, p)
  {
  }

  lemma PartedStay(s: seq<Item>, left: nat, store: nat, i: nat, right: nat, p: Item)
    requires Parted(s, left, store, i, right, p) && i < right && s[i].value >= p.value
    ensures Parted(s, left, store, i + 1, right, p)
  {
  }

  lemma PartedEnd(s: seq<Item>, left: nat, store: nat, right: nat, p: Item)
    requires Parted(s, left, store, right, right, p)
    ensures Placed(Swapped(s, store, right), left, store, right) && Swapped(s, store, right)[store] == p
    ensures OlderBefore(Swapped(s, store, right), left, store)
  {
  }

  /** Everything before the place is strictly older. */
  ghost predicate OlderBefore(s: seq<Item>, left: nat, n: nat) {
    n < |s| && forall i :: left <= i < n ==> s[i].value < s[n].value
  }

  /** gcListPartition */
  method Partition(a: array<Item>, left: nat, right: nat, pivot: nat) returns (store: nat)
    requires left <= pivot <= right < a.Length
    modifies a
    ensures left <= store <= right && a[..][store] == old(a[..])[pivot]
    ensures Placed(a[..], left, store, right) && OlderBefore(a[..], left, store)
    ensures Rearranged(old(a[..]), a[..], left, right)
  {
    hide Rearranged, Placed, Swapped, Parted, OlderBefore;
    var p := a[pivot];
    ghost var s := a[..];
    RearrangedRefl(s, left, right);
    Swap(a, pivot, right);
    RearrangedSwap(s, s, pivot, right, left, right);
    PartedStart(s, left, pivot, right);
    store := left;
    for i := left to right
      invariant left <= store <= i
      invariant Parted(a[..], left, store, i, right, p)
      invariant Rearranged(s, a[..], left, right)
    {
      ghost var t := a[..];
      if a[i].value < p.value {
        Swap(a, store, i);
        PartedMove(t, left, store, i, right, p);
        RearrangedSwap(s, t, store, i, left, right);
        store := store + 1;
      } else {
        PartedStay(t, left, store, i, right, p);
      }
    }
    ghost var t := a[..];
    Swap(a, store, right);
    PartedEnd(t, left, store, right, p);
    RearrangedSwap(s, t, store, right, left, right);
  }

  lemma PartedStart(s: seq<Item>, left: nat, pivot: nat, right: nat)
    requires left <= pivot <= right < |s|
    ensures Parted(Swapped(s, pivot, right), left, left, left, right, s[pivot])
  {
  }

  // ----- a rearranged part has the same bounds -----

  lemma CancelEnds(a: seq<Item>, u: seq<Item>, v: seq<Item>, b: seq<Item>)
    requires multiset(a + u + b) == multiset(a + v + b)
    ensures multiset(u) == multiset(v)
  {
    assert multiset(a + u + b) == multiset(a) + multiset(u) + multiset(b);
    assert multiset(a + v + b) == multiset(a) + multiset(v) + multiset(b);
    forall x
      ensures multiset(u)[x] == multiset(v)[x]
    {
      assert multiset(a + u + b)[x] == multiset(a + v + b)[x];
    }
  }

  lemma RangeItem(s: seq<Item>, t: seq<Item>, left: int, right: int, i: int) returns (j: int)
    requires Rearranged(s, t, left, right) && 0 <= left <= i <= right < |s|
    ensures left <= j <= right && s[j] == t[i]
  {
    var u, v := s[left..right + 1], t[left..right + 1];
    RangeItems(s, t, left, right);
    assert t[i] == v[i - left];
    j := SameItems(u, v, i - left);
    j := left + j;
  }

  lemma RangeItems(s: seq<Item>, t: seq<Item>, left: int, right: int)
    requires Rearranged(s, t, left, right) && 0 <= left <= right < |s|
    ensures multiset(s[left..right + 1]) == multiset(t[left..right + 1])
  {
    var u, v := s[left..right + 1], t[left..right + 1];
    assert s == s[..left] + u + s[right + 1..];
    assert s[..left] == t[..left] && s[right + 1..] == t[right + 1..];
    assert t == s[..left] + v + s[right + 1..];
    CancelEnds(s[..left], u, v, s[right + 1..]);
  }

  lemma SameItems(u: seq<Item>, v: seq<Item>, i: nat) returns (j: nat)
    requires multiset(u) == multiset(v) && i < |v|
    ensures j < |u| && u[j] == v[i]
  {
    assert v[i] in multiset(v);
    assert v[i] in u;
    j :| 0 <= j < |u| && u[j] == v[i];
  }

  /** Rearranging one side of a placed item leaves it placed. */
  lemma PlacedInside(s: seq<Item>, t: seq<Item>, left: int, m: int, right: int, l: int, r: int)
    requires Placed(s, left, m, right) && Rearranged(s, t, l, r)
    requires (l == left && r == m - 1) || (l == m + 1 && r == right)
    ensures Placed(t, left, m, right)
  {
    forall i | left <= i <= right && i != m
      ensures if i < m then t[i].value <= t[m].value else t[i].value >= t[m].value
    {
      if l <= i <= r {
        var j := RangeItem(s, t, l, r, i);
      }
    }
  }

  /** Once both the pivot m and the place n next to it are right, n is right in
      the whole range. */
  lemma PlacedWider(t: seq<Item>, left: int, m: int, right: int, n: int)
    requires Placed(t, left, m, right)
    requires (n < m && Placed(t, left, n, m - 1)) || (n > m && Placed(t, m + 1, n, right))
    ensures Placed(t, left, n, right)
  {
  }

  /** gcListSelect: after it, the n-th place of the range holds its n-th oldest
      item. A rank one past the range is possible; then the recursion ends at the
      last place, or it runs beyond the range because the newest item was chosen
      as a pivot. What the source does from there, with the slot behind the range,
      is not followed. */
  method Select(a: array<Item>, left: nat, right: nat, n: nat) returns (r: nat, beyond: bool)
    requires left <= n <= right + 1 && left <= right < a.Length
    modifies a
    ensures n <= right ==> !beyond && r == n
    ensures n == right + 1 ==> r == right
    ensures beyond ==> left < right && n == right + 1
    ensures left + 1 == right && n == right + 1 ==> (beyond <==> old(a[left].value) > old(a[right].value))
    ensures Placed(a[..], left, r, right)
    ensures Rearranged(old(a[..]), a[..], left, right)
    decreases right - left
  {
    hide Rearranged, Placed, OlderBefore;
    ghost var s := a[..];
    beyond := false;
    if left == right {
      RearrangedRefl(s, left, right);
      PlacedAlone(s, left);
      return left, false;
    }
    var pivot := (left + right) / 2;
    pivot := Partition(a, left, right, pivot);
    if left + 1 == right {
      TwoItems(s, a[..], left, pivot);
    }
    if n == pivot {
      return n, false;
    }
    if pivot == right && n == right + 1 {
      return right, true;
    }
    ghost var t := a[..];
    if n < pivot {
      r, beyond := Select(a, left, pivot - 1, n);
      PlacedInside(t, a[..], left, pivot, right, left, pivot - 1);
      RearrangedTrans(s, t, a[..], left, right, left, pivot - 1);
    } else {
      r, beyond := Select(a, pivot + 1, right, n);
      PlacedInside(t, a[..], left, pivot, right, pivot + 1, right);
      RearrangedTrans(s, t, a[..], left, right, pivot + 1, right);
    }
    PlacedWider(a[..], left, pivot, right, r);
  }

  /** With two items the first is the pivot, and it goes last only if it is newer. */
  lemma TwoItems(s: seq<Item>, t: seq<Item>, left: nat, store: nat)
    requires Rearranged(s, t, left, left + 1) && left + 1 < |t| && left <= store <= left + 1 && t[store] == s[left]
    requires Placed(t, left, store, left + 1) && OlderBefore(t, left, store)
    ensures store == left + 1 <==> s[left].value > s[left + 1].value
  {
    RangeItems(s, t, left, left + 1);
    assert s[left..left + 1 + 1] == [s[left], s[left + 1]] && t[left..left + 1 + 1] == [t[left], t[left + 1]];
    hide Rearranged;
    TwoSame(s[left], s[left + 1], t[left], t[left + 1]);
  }

  lemma TwoSame(a: Item, b: Item, c: Item, d: Item)
    requires multiset([a, b]) == multiset([c, d])
    ensures (a == c ==> b == d) && (a == d ==> b == c)
  {
    assert multiset([a, b]) == multiset{a, b} && multiset([c, d]) == multiset{c, d};
    assert multiset{a, b} - multiset{a} == multiset{b};
    assert a == c ==> multiset{c, d} - multiset{a} == multiset{d};
    assert a == d ==> multiset{c, d} - multiset{a} == multiset{c};
    assert b in multiset{b};
  }

  lemma PlacedAlone(s: seq<Item>, n: nat)
    requires n < |s|
    ensures Placed(s, n, n, n)
  {
  }
}
