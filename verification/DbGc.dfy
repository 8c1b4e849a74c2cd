/** What one garbage collection pass takes away. */
module DbGc {
  import opened Bytes
  import opened GcSelect
  import opened DbRecords

  /** The scanned items say what the index says, and no record was scanned twice. */
  ghost predicate Faithful(items: seq<Item>, index: Index) {
    forall i :: 0 <= i < |items| ==>
      items[i].key in index && index[items[i].key] == Rec(items[i].idx, items[i].value)
  }

  ghost predicate Distinct(items: seq<Item>) {
    forall i, j :: 0 <= i < j < |items| ==> items[i].key != items[j].key
  }

  // ----- selecting does not disturb the scan -----

  lemma CountTwo(t: seq<Item>, i: nat, j: nat)
    requires i < j < |t| && t[i] == t[j]
    ensures multiset(t)[t[i]] >= 2
  {
    var x := t[i];
    assert t == t[..j] + t[j..];
    assert x == t[..j][i] && x in multiset(t[..j]);
    assert x == t[j..][0] && x in multiset(t[j..]);
    assert multiset(t) == multiset(t[..j]) + multiset(t[j..]);
  }

  lemma {:induction false} CountOne(s: seq<Item>, x: Item)
    requires Distinct(s)
    ensures multiset(s)[x] <= 1
  {
    if s != [] {
      var n := |s| - 1;
      CountOne(s[..n], x);
      assert s == s[..n] + [s[n]];
      assert multiset(s) == multiset(s[..n]) + multiset([s[n]]);
      if x == s[n] {
        assert x !in s[..n];
        assert multiset(s[..n])[x] == 0;
      }
    }
  }

  lemma SelectKeepsScan(s: seq<Item>, t: seq<Item>, index: Index)
    requires multiset(s) == multiset(t) && Faithful(s, index) && Distinct(s)
    ensures Faithful(t, index) && Distinct(t)
  {
    forall i | 0 <= i < |t|
      ensures t[i].key in index && index[t[i].key] == Rec(t[i].idx, t[i].value)
    {
      var j := SameItems(s, t, i);
    }
    forall i, j | 0 <= i < j < |t|
      ensures t[i].key != t[j].key
    {
      if t[i].key == t[j].key {
        assert t[i] == t[j];
        CountTwo(t, i, j);
        CountOne(s, t[i]);
      }
    }
  }

  // ----- the records no newer than the cut -----

  function Cut(items: seq<Item>, cut: nat): set<Key> {
    if items == [] then {}
    else
      var n := |items| - 1;
      Cut(items[..n], cut) + if items[n].value <= cut then {items[n].key} else {}
  }

  lemma {:induction false} CutMembers(items: seq<Item>, cut: nat, k: Key)
    ensures k in Cut(items, cut) <==> exists i :: 0 <= i < |items| && items[i].key == k && items[i].value <= cut
  {
    if items != [] {
      var n := |items| - 1;
      CutMembers(items[..n], cut, k);
      if i :| 0 <= i < |items[..n]| && items[..n][i].key == k && items[..n][i].value <= cut {
        assert items[i].key == k;
      }
      if i :| 0 <= i < |items| && items[i].key == k && items[i].value <= cut && i < n {
        assert items[..n][i].key == k;
      }
    }
  }

  lemma CutFresh(items: seq<Item>, cut: nat, m: nat)
    requires Distinct(items) && m < |items|
    ensures items[m].key !in Cut(items[..m], cut)
  {
    CutMembers(items[..m], cut, items[m].key);
  }

  lemma CutStep(items: seq<Item>, cut: nat, m: nat)
    requires Distinct(items) && m < |items|
    ensures Cut(items[..m + 1], cut) == Cut(items[..m], cut) + if items[m].value <= cut then {items[m].key} else {}
    ensures |Cut(items[..m + 1], cut)| == |Cut(items[..m], cut)| + if items[m].value <= cut then 1 else 0
  {
    CutFresh(items, cut, m);
    assert items[..m + 1][..m] == items[..m];
  }

  lemma CutEmpty(cut: nat)
    ensures Cut([], cut) == {}
  {
  }

  lemma PlacedAt(items: seq<Item>, n: nat, right: nat, i: nat)
    requires Placed(items, 0, n, right) && i <= right
    ensures n <= right < |items|
    ensures if i <= n then items[i].value <= items[n].value else items[i].value >= items[n].value
  {
  }

  lemma {:induction false} CutHead(items: seq<Item>, n: nat, right: nat, m: nat)
    requires Distinct(items) && Placed(items, 0, n, right) && m <= n + 1
    ensures |Cut(items[..m], items[n].value)| == m
  {
    hide Distinct, Cut, Placed;
    PlacedAt(items, n, right, 0);
    PlacedAt(items, n, right, if m > 0 then m - 1 else 0);
    assert m == 0 ==> items[..m] == [];
    CutEmpty(items[n].value);
    if m > 0 {
      CutHead(items, n, right, m - 1);
      CutStep(items, items[n].value, m - 1);
    }
  }

  /** Behind rank n there is at most one more record with the cut value, because
      no stamp is held by three records. */
  lemma {:induction false} CutTail(items: seq<Item>, index: Index, now: nat, n: nat, right: nat, m: nat)
    requires Distinct(items) && Faithful(items, index) && Stamped(index, now)
    requires Placed(items, 0, n, right) && n < m <= right + 1
    ensures var size := |Cut(items[..m], items[n].value)|;
            size == n + 1 || (size == n + 2 && exists j :: n < j < m && items[j].value == items[n].value)
  {
    hide Distinct, Cut, Placed, Faithful, Stamped;
    PlacedAt(items, n, right, m - 1);
    var cut := items[n].value;
    if m == n + 1 {
      CutHead(items, n, right, m);
    } else {
      CutTail(items, index, now, n, right, m - 1);
      CutStep(items, cut, m - 1);
      if items[m - 1].value <= cut {
        assert items[m - 1].value == cut;
        if j :| n < j < m - 1 && items[j].value == cut {
          ThreeDiffer(items, index, now, n, j, m - 1);
        }
      }
    }
  }

  lemma ThreeDiffer(items: seq<Item>, index: Index, now: nat, a: nat, b: nat, c: nat)
    requires Distinct(items) && Faithful(items, index) && Stamped(index, now) && a < b < c < |items|
    ensures !(items[a].value == items[b].value == items[c].value)
  {
    hide Distinct;
    assert items[a].key != items[b].key && items[a].key != items[c].key && items[b].key != items[c].key by {
      DistinctAt(items, a, b);
      DistinctAt(items, a, c);
      DistinctAt(items, b, c);
    }
    assert items[a].key in index && items[b].key in index && items[c].key in index;
  }

  lemma DistinctAt(items: seq<Item>, i: nat, j: nat)
    requires Distinct(items) && i < j < |items|
    ensures items[i].key != items[j].key
  {
  }

  /** A pass with target rank n removes n + 1 or n + 2 records. */
  lemma CutSize(items: seq<Item>, index: Index, now: nat, n: nat)
    requires Distinct(items) && Faithful(items, index) && Stamped(index, now)
    requires Placed(items, 0, n, |items| - 1)
    ensures n + 1 <= |Cut(items, items[n].value)| <= n + 2
  {
    CutTail(items, index, now, n, |items| - 1, |items|);
    assert items[..|items|] == items;
  }

  // ----- the scan -----

  ghost predicate NoRepeats(ks: seq<Key>) {
    forall i, j :: 0 <= i < j < |ks| ==> ks[i] != ks[j]
  }

  /** All keys once, starting at position s and wrapping around. */
  function Rotation(ks: seq<Key>, s: nat): (r: seq<Key>)
    requires s <= |ks|
    ensures |r| == |ks|
  {
    ks[s..] + ks[..s]
  }

  lemma RotationDistinct(ks: seq<Key>, s: nat)
    requires Ascending(ks) && s <= |ks|
    ensures NoRepeats(Rotation(ks, s))
  {
    var r := Rotation(ks, s);
    var n := |ks|;
    forall i, j | 0 <= i < j < n
      ensures r[i] != r[j]
    {
      AscendingDistinct(ks, if i < n - s then i + s else i + s - n, if j < n - s then j + s else j + s - n);
    }
  }

  lemma RotationMembers(ks: seq<Key>, s: nat, keys: set<Key>, i: nat)
    requires Lists(ks, keys) && s <= |ks| && i < |ks|
    ensures Rotation(ks, s)[i] in keys
  {
    var r := Rotation(ks, s);
    assert r[i] in ks;
  }

  // ----- how many to remove -----

  function Portion(count: nat, ratio: real): real {
    count as real * ratio
  }

  function Target(count: nat, ratio: real): int {
    Portion(count, ratio).Floor
  }

  lemma TargetInRange(count: nat, ratio: real)
    requires count >= 1 && 0.0 <= ratio
    ensures 0 <= Target(count, ratio)
    ensures ratio < 1.0 ==> Target(count, ratio) < count
    ensures ratio >= 1.0 ==> Target(count, ratio) >= count
    ensures ratio <= 1.0 ==> Target(count, ratio) <= count
  {
    hide Portion;
    PortionBounds(count, ratio);
    FloorBounds(Portion(count, ratio), count);
  }

  lemma PortionBounds(count: nat, ratio: real)
    requires count >= 1 && 0.0 <= ratio
    ensures 0.0 <= Portion(count, ratio)
    ensures ratio < 1.0 ==> Portion(count, ratio) < count as real
    ensures ratio >= 1.0 ==> Portion(count, ratio) >= count as real
    ensures ratio <= 1.0 ==> Portion(count, ratio) <= count as real
  {
    var c := count as real;
    assert Portion(count, ratio) == ratio * c;
    if ratio < 1.0 {
      TimesMore(1.0, ratio, c);
    } else if ratio > 1.0 {
      TimesMore(ratio, 1.0, c);
    }
    if ratio > 0.0 {
      TimesMore(ratio, 0.0, c);
    }
    assert ratio == 1.0 ==> ratio * c == c;
    assert ratio == 0.0 ==> ratio * c == 0.0;
  }

  lemma FloorBounds(x: real, count: nat)
    ensures x >= 0.0 ==> x.Floor >= 0
    ensures x < count as real ==> x.Floor < count
    ensures x >= count as real ==> x.Floor >= count
    ensures x <= count as real ==> x.Floor <= count
  {
  }

  /** The rank that the selection ends at; at ratio 1 the target lies just past
      the scanned records. */
  function Rank(count: nat, ratio: real): int {
    if Target(count, ratio) < count then Target(count, ratio) else count - 1
  }

  const FREE_RATIO: real := 0.1

  /** The ratio that setCapacity collects with. */
  function ShrinkRatio(c: nat, count: nat): real
    requires count > 0
  {
    var ratio := 1.01 - c as real / count as real;
    if ratio < FREE_RATIO then FREE_RATIO else if ratio > 1.0 then 1.0 else ratio
  }

  /** The target rank lies inside the scan exactly when the new capacity is more
      than a hundredth of the entries. */
  lemma ShrinkTargetIff(c: nat, count: nat, scanned: nat)
    requires 1 <= scanned <= count
    ensures 0.0 <= ShrinkRatio(c, count) <= 1.0
    ensures ShrinkRatio(c, count) < 1.0 <==> 100 * c > count
    ensures 0 <= Target(scanned, ShrinkRatio(c, count)) < scanned <==> 100 * c > count
  {
    QuotientAbove(c, count);
    TargetInRange(scanned, ShrinkRatio(c, count));
  }

  lemma QuotientAbove(c: nat, count: nat)
    requires count > 0
    ensures c as real / count as real > 0.01 <==> 100 * c > count
  {
    QuotientOver(c as real, count as real, 0.01);
    assert c as real > 0.01 * count as real <==> 100 * c > count;
  }

  lemma QuotientOver(c: real, n: real, r: real)
    requires n > 0.0
    ensures c / n > r <==> c > r * n
  {
    var q := c / n;
    assert q * n == c;
    if q > r {
      TimesMore(q, r, n);
    } else if q < r {
      TimesMore(r, q, n);
    }
  }

  lemma TimesMore(a: real, b: real, n: real)
    requires a > b && n > 0.0
    ensures a * n > b * n
  {
  }

  // ----- one pass -----

  /** Among the scanned records exactly the oldest go: n + 1 of them, or n + 2
      when two share the stamp at the cut. */
  ghost predicate Collected(index: Index, scanned: seq<Key>, removed: set<Key>, n: int) {
    && NoRepeats(scanned) && (forall k :: k in scanned ==> k in index)
    && (forall k :: k in removed ==> k in scanned)
    && n + 1 <= |removed| <= n + 2
    && (forall k, l :: k in removed && l in scanned && l !in removed && k in index && l in index ==>
          index[k].access < index[l].access)
  }

  /** The items are those of the given keys. */
  ghost predicate ScanOf(items: seq<Item>, keys: seq<Key>, index: Index) {
    && |items| == |keys|
    && (forall i :: 0 <= i < |items| ==> items[i].key == keys[i])
    && Faithful(items, index)
  }

  lemma ScanDistinct(items: seq<Item>, keys: seq<Key>, index: Index)
    requires ScanOf(items, keys, index) && NoRepeats(keys)
    ensures Distinct(items) && Faithful(items, index)
  {
  }

  lemma SelectedPrefix(s: seq<Item>, t: seq<Item>, n: nat, count: nat)
    requires Rearranged(s, t, 0, count - 1) && Placed(t, 0, n, count - 1)
    ensures count <= |s| == |t| && multiset(s[..count]) == multiset(t[..count]) && Placed(t[..count], 0, n, count - 1)
  {
    RangeItems(s, t, 0, count - 1);
    assert s[0..count - 1 + 1] == s[..count] && t[0..count - 1 + 1] == t[..count];
  }

  lemma CutCollects(s: seq<Item>, t: seq<Item>, scanned: seq<Key>, index: Index, now: nat, n: nat)
    requires ScanOf(s, scanned, index) && NoRepeats(scanned) && Stamped(index, now)
    requires multiset(s) == multiset(t) && |t| == |s| > 0 && Placed(t, 0, n, |t| - 1)
    ensures Faithful(t, index) && Distinct(t)
    ensures n < |t| && Collected(index, scanned, Cut(t, t[n].value), n)
  {
    hide Stamped, Placed, NoRepeats, Faithful, Distinct, Cut;
    PlacedAt(t, n, |t| - 1, 0);
    var cut := t[n].value;
    ScanDistinct(s, scanned, index);
    SelectKeepsScan(s, t, index);
    CutSize(t, index, now, n);
    forall k | k in Cut(t, cut)
      ensures k in scanned && k in index && index[k].access <= cut
    {
      CutMembers(t, cut, k);
      var i :| 0 <= i < |t| && t[i].key == k && t[i].value <= cut;
      var j := SameItems(s, t, i);
      FaithfulAt(t, index, i);
    }
    forall l | l in scanned
      ensures l in index && (l !in Cut(t, cut) ==> index[l].access > cut)
    {
      var j :| 0 <= j < |scanned| && scanned[j] == l;
      var i := SameItems(t, s, j);
      FaithfulAt(t, index, i);
      CutMembers(t, cut, l);
    }
  }

  lemma FaithfulAt(items: seq<Item>, index: Index, i: nat)
    requires Faithful(items, index) && i < |items|
    ensures items[i].key in index && index[items[i].key] == Rec(items[i].idx, items[i].value)
  {
  }

  // ----- recently used records survive -----

  /** A pass removes a record only together with every scanned record that was used
      less recently. */
  lemma OlderGoFirst(index: Index, scanned: seq<Key>, removed: set<Key>, n: int, k: Key, j: Key)
    requires Collected(index, scanned, removed, n) && k in removed && j in scanned && j in index && k in index
    requires index[j].access < index[k].access
    ensures j in removed
  {
  }

  /** So the record that was used last goes only if the pass removes everything it
      has scanned, and never if it scanned more than n + 2 records. */
  lemma LastUsedStays(before: Index, index: Index, k: Key, stamp: nat, scanned: seq<Key>, removed: set<Key>, n: int)
    requires JustUsed(before, index, k, stamp) && Collected(index, scanned, removed, n) && k in removed
    ensures forall j :: j in scanned ==> j in removed
    ensures |scanned| <= n + 2
  {
    hide NoRepeats;
    forall j | j in scanned
      ensures j in removed
    {
      if j != k {
        OlderGoFirst(index, scanned, removed, n, k, j);
      }
    }
    NoMoreThan(scanned, removed);
  }

  lemma {:induction false} NoMoreThan(ks: seq<Key>, s: set<Key>)
    requires NoRepeats(ks) && forall j :: j in ks ==> j in s
    ensures |ks| <= |s|
    decreases |ks|
  {
    if ks != [] {
      var n := |ks| - 1;
      assert ks[n] in s && forall i :: 0 <= i < n ==> ks[..n][i] == ks[i];
      NoMoreThan(ks[..n], s - {ks[n]});
    }
  }

  // ----- the size of a pass -----

  /** The target is the whole part of count * ratio. */
  lemma TargetMeans(count: nat, ratio: real)
    ensures Target(count, ratio) as real <= count as real * ratio < (Target(count, ratio) + 1) as real
  {
  }

  /** Making room for a new chunk targets a tenth of the scanned records. */
  lemma FreeRank(count: nat)
    requires count >= 1
    ensures Rank(count, FREE_RATIO) == count / 10
  {
    DivModIdentity(count, 10);
    var q := count / 10;
    TargetMeans(count, FREE_RATIO);
    assert count as real * FREE_RATIO == count as real / 10.0;
    assert q as real <= count as real / 10.0 < (q + 1) as real;
  }

  /** Shrinking to capacity c targets the whole part of 1.01 * count - c, and at
      least a tenth, of the entries when one scan covers them all. */
  lemma ShrinkTarget(c: nat, count: nat)
    requires count >= 1 && 100 * c > count
    ensures var a, b := 101 * count - 100 * c, 10 * count;
            Target(count, ShrinkRatio(c, count)) == (if a < b then b else a) / 100
  {
    var a, b := 101 * count - 100 * c, 10 * count;
    var m := if a < b then b else a;
    QuotientAbove(c, count);
    ShrinkPortion(c, count);
    hide ShrinkRatio;
    TargetMeans(count, ShrinkRatio(c, count));
    hide Target;
    DivModIdentity(m, 100);
    assert (m / 100) as real <= m as real / 100.0 < (m / 100 + 1) as real;
  }

  lemma ShrinkPortion(c: nat, count: nat)
    requires count >= 1 && 100 * c > count
    ensures var a, b := 101 * count - 100 * c, 10 * count;
            count as real * ShrinkRatio(c, count) == (if a < b then b else a) as real / 100.0
  {
    var n, q := count as real, c as real / count as real;
    QuotientAbove(c, count);
    QuotientOver(c as real, n, 0.91);
    assert q * n == c as real;
    assert n * (1.01 - q) == 1.01 * n - c as real;
    assert 1.01 - q < FREE_RATIO <==> q > 0.91;
    assert q > 0.91 <==> 100 * c > 91 * count;
  }

  /** Then a single pass is enough. */
  lemma OnePassShrinks(c: nat, count: nat, removed: nat)
    requires c < count && 100 * c > count && removed >= Rank(count, ShrinkRatio(c, count)) + 1
    ensures count - removed <= c
  {
    ShrinkTarget(c, count);
    ShrinkTargetIff(c, count, count);
    hide ShrinkRatio, Target;
    DivModIdentity(101 * count - 100 * c, 100);
    DivModIdentity(10 * count, 100);
  }
}
