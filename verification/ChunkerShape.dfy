/** What the tree of a document looks like, said with nothing but the hash size and
    the number of branches: how large a chunk is, which leaves there are, and what
    the chunks above them hold. */
module ChunkerShape {
  import opened Bytes
  import opened Chunker

  function LeafSize(p: Params): nat {
    p.hashSize * p.branches
  }

  /** Where leaf i begins. */
  function LeafStart(p: Params, i: nat): nat {
    MulMono(0, i, p.hashSize * p.branches);
    i * (p.hashSize * p.branches)
  }

  /** Leaf i: its size and its part of the document. */
  function Leaf(p: Params, data: seq<Byte>, i: nat): seq<Byte>
    requires LeafStart(p, i) <= |data|
  {
    var a := LeafStart(p, i);
    var b := Min(a + LeafSize(p), |data|);
    LittleEndian(b - a, 8) + data[a..b]
  }

  /** How many leaves a full tree of a depth has. */
  function LeafCount(p: Params, d: nat): nat {
    if d == 0 then 1 else p.branches * LeafCount(p, d - 1)
  }

  lemma MulAssoc(a: nat, b: nat, c: nat)
    ensures a * (b * c) == (a * b) * c
  {
  }

  lemma {:induction false} CapMeans(p: Params, d: nat)
    ensures Cap(p, d) == LeafCount(p, d) * LeafSize(p)
  {
    if d == 0 {
      FirstCap(p);
    } else {
      CapMeans(p, d - 1);
      MulAssoc(p.branches, LeafCount(p, d - 1), LeafSize(p));
      hide LeafSize, ChunkSize;
    }
  }

  lemma FirstCap(p: Params)
    ensures Cap(p, 0) == LeafSize(p) == p.hashSize * p.branches && LeafCount(p, 0) * LeafSize(p) == LeafSize(p)
  {
  }

  lemma SizePositive(p: Params)
    requires IsParams(p)
    ensures p.hashSize * p.branches == LeafSize(p) >= 1
  {
    MulMono(1, p.hashSize, p.branches);
  }

  // ----- chunk sizes -----

  /** No emitted chunk carries more than hashSize * branches bytes. */
  lemma ChunkBound(p: Params, h: Hash, data: seq<Byte>, x: seq<Byte>)
    requires IsParams(p) && IsHash(p, h) && x in AllChunks(p, h, data)
    ensures |x| <= 8 + p.hashSize * p.branches
  {
    AllChunksFit(p, h, data, x);
  }

  /** A document of at most that many bytes is one chunk. */
  lemma SmallDocument(p: Params, h: Hash, data: seq<Byte>)
    requires IsParams(p) && |data| <= p.hashSize * p.branches
    ensures AllChunks(p, h, data) == {LittleEndian(|data|, 8) + data}
    ensures RootKey(p, h, data) == h(LittleEndian(|data|, 8) + data)
  {
    SmallDepth(p, |data|);
    ChunksOf(p, h, data, 0, 0);
    hide LittleEndian, Depth, Emitted, KeyOf;
  }

  /** The chunk on top of a section of level l, and the chunks below it. */
  lemma ChunksOf(p: Params, h: Hash, data: seq<Byte>, d: nat, l: nat)
    requires IsParams(p) && l == Level(p, |data|, d)
    ensures KeyOf(p, h, data, d) == h(Payload(p, h, data, l))
    ensures Payload(p, h, data, l) == LittleEndian(|data|, 8) + if l == 0 then data else Keys(p, h, data, l)
    ensures Emitted(p, h, data, d) == {Payload(p, h, data, l)} + if l == 0 then {} else EmittedBelow(p, h, data, l)
  {
    hide LittleEndian, Keys, EmittedBelow;
  }

  lemma SmallDepth(p: Params, size: nat)
    requires IsParams(p) && size <= p.hashSize * p.branches
    ensures Depth(p, size, 0) == 0
  {
    FirstCap(p);
    hide Cap;
  }

  lemma LongDepth(p: Params, size: nat)
    requires IsParams(p) && size > p.hashSize * p.branches
    ensures var d := Depth(p, size, 0);
            d > 0 && Level(p, size, d) == d && Cap(p, d - 1) < size <= p.branches * Cap(p, d - 1)
  {
    FirstCap(p);
    var d := Depth(p, size, 0);
    assert d > 0;
    assert Cap(p, d) == p.branches * Cap(p, d - 1);
    hide Cap, Depth;
  }

  // ----- leaves -----

  lemma IndexOrder(n: nat, i: nat, m: nat)
    requires n >= 1
    ensures i < m ==> i * n + n <= m * n
    ensures i >= m ==> i * n >= m * n && (i - m) * n == i * n - m * n
    ensures 0 <= i * n
  {
    if i < m {
      MulMono(i + 1, m, n);
      Distribute(i, 1, n);
    } else {
      MulMono(m, i, n);
      Distribute(i - m, m, n);
    }
    MulMono(0, i, n);
  }

  /** Where leaf i lies with respect to the first section of a level. */
  lemma LeafPlace(p: Params, d: nat, i: nat)
    requires IsParams(p)
    ensures var t, m := Cap(p, d), LeafCount(p, d);
            if i < m then LeafStart(p, i) + LeafSize(p) <= t
            else t <= LeafStart(p, i) && LeafStart(p, i - m) == LeafStart(p, i) - t
  {
    CapMeans(p, d);
    SizePositive(p);
    IndexOrder(LeafSize(p), i, LeafCount(p, d));
    StartMeans(p, i);
    if i >= LeafCount(p, d) {
      StartMeans(p, i - LeafCount(p, d));
    }
    hide Cap, LeafCount, LeafStart, LeafSize;
  }

  lemma StartMeans(p: Params, i: nat)
    ensures LeafStart(p, i) == i * LeafSize(p)
  {
  }

  /** Every leaf of a section is emitted. */
  lemma {:induction false} LeafEmitted(p: Params, h: Hash, data: seq<Byte>, d: nat, i: nat)
    requires IsParams(p) && |data| <= Cap(p, d) && LeafStart(p, i) < |data|
    ensures Leaf(p, data, i) in Emitted(p, h, data, d)
    decreases d, |data|, 1
  {
    var l := Level(p, |data|, d);
    if l == 0 {
      LeafAlone(p, data, i, d);
      hide Leaf, LittleEndian, Level;
      assert Payload(p, h, data, 0) == LittleEndian(|data|, 8) + data;
    } else {
      hide Leaf, EmittedBelow;
      LeafBelow(p, h, data, l, i);
    }
  }

  lemma LeafAlone(p: Params, data: seq<Byte>, i: nat, d: nat)
    requires IsParams(p) && |data| <= Cap(p, d) && Level(p, |data|, d) == 0
    requires LeafStart(p, i) < |data|
    ensures i == 0 && Leaf(p, data, i) == LittleEndian(|data|, 8) + data
  {
    SizePositive(p);
    FirstCap(p);
    StartMeans(p, i);
    hide Cap, LittleEndian, LeafStart, LeafSize;
    OnlyFirst(LeafSize(p), i, |data|);
    WholeLeaf(p, data);
  }

  lemma OnlyFirst(n: nat, i: nat, size: nat)
    requires i * n < size <= n
    ensures i == 0
  {
    if i > 0 {
      MulMono(1, i, n);
    }
  }

  lemma WholeLeaf(p: Params, data: seq<Byte>)
    requires |data| <= LeafSize(p)
    ensures LeafStart(p, 0) == 0 && Leaf(p, data, 0) == LittleEndian(|data|, 8) + data
  {
    hide LittleEndian, LeafStart, LeafSize;
    StartZero(p);
    assert data[0..|data|] == data;
  }

  lemma StartZero(p: Params)
    ensures LeafStart(p, 0) == 0
  {
  }

  lemma {:induction false} LeafBelow(p: Params, h: Hash, data: seq<Byte>, l: nat, i: nat)
    requires IsParams(p) && l > 0 && LeafStart(p, i) < |data|
    ensures Leaf(p, data, i) in EmittedBelow(p, h, data, l)
    decreases l, |data|, 0
  {
    CapPositive(p, l - 1);
    var t, m := Cap(p, l - 1), LeafCount(p, l - 1);
    LeafPlace(p, l - 1, i);
    hide Emitted, Cap, LeafCount, Leaf, LeafStart, LeafSize;
    if |data| <= t {
      LeafEmitted(p, h, data, l - 1, i);
    } else if i < m {
      LeafOfFirst(p, data, t, i);
      LeafEmitted(p, h, data[..t], l - 1, i);
    } else {
      LeafOfRest(p, data, t, i, m);
      LeafBelow(p, h, data[t..], l, i - m);
    }
  }

  lemma LeafOfFirst(p: Params, data: seq<Byte>, t: nat, i: nat)
    requires t <= |data| && LeafStart(p, i) + LeafSize(p) <= t
    ensures Leaf(p, data[..t], i) == Leaf(p, data, i)
  {
    hide LittleEndian, LeafStart, LeafSize;
    var a, n := LeafStart(p, i), LeafSize(p);
    assert data[..t][a..a + n] == data[a..a + n];
  }

  lemma LeafOfRest(p: Params, data: seq<Byte>, t: nat, i: nat, m: nat)
    requires m <= i && t <= LeafStart(p, i) < |data| && LeafStart(p, i - m) == LeafStart(p, i) - t
    ensures Leaf(p, data[t..], i - m) == Leaf(p, data, i)
  {
    hide LittleEndian, LeafStart, LeafSize;
    var a, n := LeafStart(p, i), LeafSize(p);
    var b := Min(a + n, |data|);
    assert data[t..][a - t..b - t] == data[a..b];
  }

  /** The bytes of every document from each multiple of hashSize * branches on, up
      to the next one or the end, are emitted as a leaf. */
  lemma EveryLeaf(p: Params, h: Hash, data: seq<Byte>, i: nat, a: nat)
    requires IsParams(p) && a == i * (p.hashSize * p.branches) && a < |data|
    ensures var b := Min(a + p.hashSize * p.branches, |data|);
            LittleEndian(b - a, 8) + data[a..b] in AllChunks(p, h, data)
  {
    hide LittleEndian, Emitted;
    LeafEmitted(p, h, data, Depth(p, |data|, 0), i);
  }

  // ----- the chunks above -----

  function Hashes(h: Hash, cs: seq<seq<Byte>>): seq<Byte> {
    if cs == [] then [] else h(cs[0]) + Hashes(h, cs[1..])
  }

  /** A chunk that holds the keys of at least two and at most branches chunks. */
  ghost predicate KeyChunk(p: Params, h: Hash, x: seq<Byte>, all: set<seq<Byte>>) {
    |x| >= 8 && exists cs: seq<seq<Byte>> ::
      && 1 <= |cs| <= p.branches && x[8..] == Hashes(h, cs)
      && forall i :: 0 <= i < |cs| ==> cs[i] in all
  }

  /** The keys of a section are the hashes of the chunks on top of its parts. */
  lemma {:induction false} KeysAreHashes(p: Params, h: Hash, data: seq<Byte>, l: nat, k: nat) returns (cs: seq<seq<Byte>>)
    requires IsParams(p) && l > 0 && k > 0 && |data| <= k * Cap(p, l - 1)
    ensures 1 <= |cs| <= k && Keys(p, h, data, l) == Hashes(h, cs)
    ensures |data| > Cap(p, l - 1) ==> |cs| >= 2
    ensures forall i :: 0 <= i < |cs| ==> cs[i] in EmittedBelow(p, h, data, l)
    decreases |data|
  {
    CapPositive(p, l - 1);
    var t := Cap(p, l - 1);
    hide Cap;
    Unfold(p, h, data, l);
    hide Keys, EmittedBelow;
    if |data| <= t {
      cs := [Payload(p, h, data, Level(p, |data|, l - 1))];
      PayloadEmitted(p, h, data, l - 1);
      hide Payload, Emitted;
      assert cs[1..] == [] && Hashes(h, cs) == h(cs[0]) + [];
    } else {
      var first := Payload(p, h, data[..t], Level(p, t, l - 1));
      PayloadEmitted(p, h, data[..t], l - 1);
      FewerSections(|data|, k, t);
      var rest := KeysAreHashes(p, h, data[t..], l, k - 1);
      hide Payload, Emitted;
      cs := [first] + rest;
      assert cs[1..] == rest;
    }
  }

  lemma FewerSections(n: nat, k: nat, t: nat)
    requires t < n <= k * t
    ensures k > 1 && n - t <= (k - 1) * t
  {
    if k <= 1 {
      MulMono(k, 1, t);
    }
    Distribute(k - 1, 1, t);
  }

  /** The chunk on top of a section that needs a level of its own. */
  lemma TopChunk(p: Params, h: Hash, data: seq<Byte>, l: nat)
    requires IsParams(p) && l > 0 && |data| <= Cap(p, l)
    ensures KeyChunk(p, h, Payload(p, h, data, l), EmittedBelow(p, h, data, l))
  {
    hide LittleEndian, EmittedBelow, Hashes;
    var cs := KeysAreHashes(p, h, data, l, p.branches);
    var x := Payload(p, h, data, l);
    hide Keys;
    assert x[8..] == Keys(p, h, data, l);
  }

  /** A longer document has a root chunk of at least two keys, and each of them is
      the hash of an emitted chunk. */
  lemma LongDocument(p: Params, h: Hash, data: seq<Byte>) returns (root: seq<Byte>, cs: seq<seq<Byte>>)
    requires IsParams(p) && |data| > p.hashSize * p.branches
    ensures RootKey(p, h, data) == h(root) && root in AllChunks(p, h, data)
    ensures 2 <= |cs| <= p.branches && root == LittleEndian(|data|, 8) + Hashes(h, cs)
    ensures forall i :: 0 <= i < |cs| ==> cs[i] in AllChunks(p, h, data)
  {
    LongDepth(p, |data|);
    var d := Depth(p, |data|, 0);
    ChunksOf(p, h, data, d, d);
    hide LittleEndian, Hashes, EmittedBelow, Keys, Depth, Cap, Level, Payload, Emitted, KeyOf;
    cs := KeysAreHashes(p, h, data, d, p.branches);
    root := Payload(p, h, data, d);
  }

  lemma KeyChunkGrows(p: Params, h: Hash, x: seq<Byte>, some: set<seq<Byte>>, all: set<seq<Byte>>)
    requires KeyChunk(p, h, x, some) && some <= all
    ensures KeyChunk(p, h, x, all)
  {
    hide Hashes;
    var cs :| 1 <= |cs| <= p.branches && x[8..] == Hashes(h, cs) && forall i :: 0 <= i < |cs| ==> cs[i] in some;
    assert forall i :: 0 <= i < |cs| ==> cs[i] in all;
  }

  /** x is leaf i of the document. */
  predicate IsLeaf(p: Params, data: seq<Byte>, i: nat, x: seq<Byte>) {
    LeafStart(p, i) < |data| && x == Leaf(p, data, i)
  }

  /** Nothing else is emitted for a section. */
  lemma {:induction false} EmittedKnown(p: Params, h: Hash, data: seq<Byte>, d: nat, x: seq<Byte>, all: set<seq<Byte>>)
    requires IsParams(p) && |data| <= Cap(p, d) && x in Emitted(p, h, data, d) && Emitted(p, h, data, d) <= all
    ensures data != [] ==> (exists i: nat :: IsLeaf(p, data, i, x)) || KeyChunk(p, h, x, all)
    ensures data == [] ==> x == LittleEndian(0, 8) + []
    decreases d, |data|, 1
  {
    var l := Level(p, |data|, d);
    if l == 0 {
      hide LittleEndian, KeyChunk;
      if data != [] {
        FirstLeaf(p, data, d);
        assert IsLeaf(p, data, 0, x);
      }
    } else {
      LevelPart(p, h, data, d, l);
      hide LittleEndian, KeyChunk, IsLeaf, EmittedBelow;
      if x == Payload(p, h, data, l) {
        TopChunk(p, h, data, l);
        KeyChunkGrows(p, h, x, EmittedBelow(p, h, data, l), all);
      } else {
        BelowKnown(p, h, data, l, x, all);
      }
    }
  }

  lemma FirstLeaf(p: Params, data: seq<Byte>, d: nat)
    requires IsParams(p) && |data| <= Cap(p, d) && Level(p, |data|, d) == 0 && data != []
    ensures IsLeaf(p, data, 0, LittleEndian(|data|, 8) + data)
  {
    LeafAlone(p, data, 0, d);
  }

  lemma LevelPart(p: Params, h: Hash, data: seq<Byte>, d: nat, l: nat)
    requires IsParams(p) && l == Level(p, |data|, d) && l > 0 && |data| <= Cap(p, d)
    ensures |data| <= Cap(p, l) && data != [] && EmittedBelow(p, h, data, l) <= Emitted(p, h, data, d)
    ensures Emitted(p, h, data, d) == {Payload(p, h, data, l)} + EmittedBelow(p, h, data, l)
  {
    CapPositive(p, l - 1);
    hide Payload, EmittedBelow, Cap;
  }

  lemma {:induction false} BelowKnown(p: Params, h: Hash, data: seq<Byte>, l: nat, x: seq<Byte>, all: set<seq<Byte>>)
    requires IsParams(p) && l > 0 && data != [] && x in EmittedBelow(p, h, data, l) && EmittedBelow(p, h, data, l) <= all
    ensures (exists i: nat :: IsLeaf(p, data, i, x)) || KeyChunk(p, h, x, all)
    decreases l, |data|, 0
  {
    CapPositive(p, l - 1);
    var t := Cap(p, l - 1);
    hide Emitted, KeyChunk, Cap, LittleEndian, IsLeaf;
    if |data| <= t {
      EmittedKnown(p, h, data, l - 1, x, all);
    } else if x in Emitted(p, h, data[..t], l - 1) {
      EmittedKnown(p, h, data[..t], l - 1, x, all);
      if i: nat :| IsLeaf(p, data[..t], i, x) {
        FirstIsLeaf(p, data, l, i, x);
      }
    } else {
      BelowKnown(p, h, data[t..], l, x, all);
      if i: nat :| IsLeaf(p, data[t..], i, x) {
        RestIsLeaf(p, data, l, i, x);
      }
    }
  }

  lemma FirstIsLeaf(p: Params, data: seq<Byte>, l: nat, i: nat, x: seq<Byte>)
    requires IsParams(p) && l > 0 && Cap(p, l - 1) < |data| && IsLeaf(p, data[..Cap(p, l - 1)], i, x)
    ensures IsLeaf(p, data, i, x)
  {
    LeafPlace(p, l - 1, i);
    var t := Cap(p, l - 1);
    hide Leaf, Cap, LeafCount, LeafStart, LeafSize;
    LeafOfFirst(p, data, t, i);
  }

  lemma RestIsLeaf(p: Params, data: seq<Byte>, l: nat, i: nat, x: seq<Byte>)
    requires IsParams(p) && l > 0 && Cap(p, l - 1) < |data| && IsLeaf(p, data[Cap(p, l - 1)..], i, x)
    ensures IsLeaf(p, data, i + LeafCount(p, l - 1), x)
  {
    hide Leaf, Cap, LeafCount, LeafStart, LeafSize;
    var t, m := Cap(p, l - 1), LeafCount(p, l - 1);
    LeafPlace(p, l - 1, i + m);
    assert (i + m) - m == i;
    LeafOfRest(p, data, t, i + m, m);
  }

  /** Every emitted chunk of a nonempty document is one of its leaves or holds the
      keys of at most branches emitted chunks. */
  lemma NothingElse(p: Params, h: Hash, data: seq<Byte>, x: seq<Byte>)
    requires IsParams(p) && data != [] && x in AllChunks(p, h, data)
    ensures (exists i: nat :: IsLeaf(p, data, i, x)) || KeyChunk(p, h, x, AllChunks(p, h, data))
  {
    hide Emitted, KeyChunk, IsLeaf;
    EmittedKnown(p, h, data, Depth(p, |data|, 0), x, AllChunks(p, h, data));
  }
}
