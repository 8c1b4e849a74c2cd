/** TreeChunker: cutting a document into a Merkle tree of chunks, and the lazy
    reader that puts any byte range back together. */
module Chunker {
  import opened Bytes

  /** branches and the length of a hash; a chunk carries branches hashes or as
      many bytes of data. */
  datatype Params = Params(branches: nat, hashSize: nat)

  predicate IsParams(p: Params) {
    p.branches >= 2 && p.hashSize >= 1
  }

  type Hash = seq<Byte> -> Key

  ghost predicate IsHash(p: Params, h: Hash) {
    forall x {:trigger h(x)} :: |h(x)| == p.hashSize
  }

  function ChunkSize(p: Params): nat {
    p.hashSize * p.branches
  }

  /** How many bytes a tree of the given depth can hold. */
  function Cap(p: Params, d: nat): nat {
    if d == 0 then ChunkSize(p) else p.branches * Cap(p, d - 1)
  }

  lemma {:induction false} CapPositive(p: Params, d: nat)
    requires IsParams(p)
    ensures Cap(p, d) >= 1
  {
    if d == 0 {
      MulMono(1, p.hashSize, p.branches);
    } else {
      CapPositive(p, d - 1);
      MulMono(1, p.branches, Cap(p, d - 1));
    }
  }

  /** The first loop of split and join: skip the levels a short section does not need. */
  function Level(p: Params, size: nat, d: nat): (l: nat)
    ensures l <= d
    ensures l > 0 ==> size >= Cap(p, l - 1)
    ensures l < d ==> size < Cap(p, l)
  {
    if d > 0 && size < Cap(p, d - 1) then Level(p, size, d - 1) else d
  }

  function Min(a: nat, b: nat): nat {
    if a < b then a else b
  }

  // ----- the tree of a document -----

  /** The key of a section that was handed to split with the given depth. */
  function KeyOf(p: Params, h: Hash, data: seq<Byte>, d: nat): Key
    requires IsParams(p)
    decreases d, |data|, 2
  {
    h(Payload(p, h, data, Level(p, |data|, d)))
  }

  /** The chunk at the top of a section: its size, and its bytes or its children's keys. */
  function Payload(p: Params, h: Hash, data: seq<Byte>, l: nat): seq<Byte>
    requires IsParams(p)
    decreases l, |data|, 1
  {
    LittleEndian(|data|, 8) + if l == 0 then data else Keys(p, h, data, l)
  }

  /** The keys of consecutive sections of Cap(l - 1) bytes; the last may be shorter. */
  function Keys(p: Params, h: Hash, data: seq<Byte>, l: nat): seq<Byte>
    requires IsParams(p) && l > 0
    decreases l, |data|, 0
  {
    CapPositive(p, l - 1);
    var t := Cap(p, l - 1);
    if |data| <= t then KeyOf(p, h, data, l - 1)
    else KeyOf(p, h, data[..t], l - 1) + Keys(p, h, data[t..], l)
  }

  /** All chunks that split emits for a section. */
  function Emitted(p: Params, h: Hash, data: seq<Byte>, d: nat): set<seq<Byte>>
    requires IsParams(p)
    decreases d, |data|, 2
  {
    EmittedAt(p, h, data, Level(p, |data|, d))
  }

  function EmittedAt(p: Params, h: Hash, data: seq<Byte>, l: nat): set<seq<Byte>>
    requires IsParams(p)
    decreases l, |data|, 1
  {
    {Payload(p, h, data, l)} + if l == 0 then {} else EmittedBelow(p, h, data, l)
  }

  function EmittedBelow(p: Params, h: Hash, data: seq<Byte>, l: nat): set<seq<Byte>>
    requires IsParams(p) && l > 0
    decreases l, |data|, 0
  {
    CapPositive(p, l - 1);
    var t := Cap(p, l - 1);
    if |data| <= t then Emitted(p, h, data, l - 1)
    else Emitted(p, h, data[..t], l - 1) + EmittedBelow(p, h, data[t..], l)
  }

  /** The lowest depth whose capacity the document does not exceed. */
  function Depth(p: Params, size: nat, d: nat): (r: nat)
    requires IsParams(p)
    ensures r >= d && size <= Cap(p, r)
    ensures r > d ==> size > Cap(p, r - 1)
    decreases size - Cap(p, d)
  {
    if Cap(p, d) < size then
      CapGrows(p, d);
      Depth(p, size, d + 1)
    else d
  }

  lemma CapGrows(p: Params, d: nat)
    requires IsParams(p)
    ensures Cap(p, d + 1) > Cap(p, d)
  {
    CapPositive(p, d);
    MulMono(2, p.branches, Cap(p, d));
  }

  function RootKey(p: Params, h: Hash, data: seq<Byte>): Key
    requires IsParams(p)
  {
    KeyOf(p, h, data, Depth(p, |data|, 0))
  }

  function AllChunks(p: Params, h: Hash, data: seq<Byte>): set<seq<Byte>>
    requires IsParams(p)
  {
    Emitted(p, h, data, Depth(p, |data|, 0))
  }

  // ----- Merkle binding -----

  ghost predicate NoCollision(h: Hash, chunks: set<seq<Byte>>) {
    forall x, y {:trigger h(x), h(y)} :: x in chunks && y in chunks && h(x) == h(y) ==> x == y
  }

  predicate FitsSize(n: nat) {
    n < Pow256(8)
  }

  lemma SplitPayload(s: seq<Byte>, a: seq<Byte>, s': seq<Byte>, a': seq<Byte>)
    requires |s| == |s'| && s + a == s' + a'
    ensures s == s' && a == a'
  {
    assert (s + a)[..|s|] == s && (s' + a')[..|s|] == s';
    assert (s + a)[|s|..] == a && (s' + a')[|s|..] == a';
  }

  lemma SizeFromPrefix(m: nat, n: nat)
    requires FitsSize(m) && FitsSize(n) && LittleEndian(m, 8) == LittleEndian(n, 8)
    ensures m == n
  {
    hide LittleEndian, Pow256;
    LittleEndianRoundTrip(m, 8);
    LittleEndianRoundTrip(n, 8);
  }

  lemma SamePayload(p: Params, h: Hash, a: seq<Byte>, l: nat, b: seq<Byte>, l': nat)
    requires IsParams(p) && FitsSize(|a|) && FitsSize(|b|)
    requires Payload(p, h, a, l) == Payload(p, h, b, l')
    ensures |a| == |b|
    ensures (if l == 0 then a else Keys(p, h, a, l)) == (if l' == 0 then b else Keys(p, h, b, l'))
  {
    hide LittleEndian, Pow256, Keys;
    SplitPayload(LittleEndian(|a|, 8), if l == 0 then a else Keys(p, h, a, l),
                 LittleEndian(|b|, 8), if l' == 0 then b else Keys(p, h, b, l'));
    SizeFromPrefix(|a|, |b|);
  }

  lemma {:induction false} BindSection(p: Params, h: Hash, a: seq<Byte>, b: seq<Byte>, d: nat, all: set<seq<Byte>>)
    requires IsParams(p) && IsHash(p, h) && FitsSize(|a|) && FitsSize(|b|)
    requires NoCollision(h, all) && Emitted(p, h, a, d) <= all && Emitted(p, h, b, d) <= all
    requires KeyOf(p, h, a, d) == KeyOf(p, h, b, d)
    ensures a == b
    decreases d, |a|, 2
  {
    hide LittleEndian, Pow256, Keys, Payload;
    var l, l' := Level(p, |a|, d), Level(p, |b|, d);
    assert Payload(p, h, a, l) in Emitted(p, h, a, d) && Payload(p, h, b, l') in Emitted(p, h, b, d);
    SamePayload(p, h, a, l, b, l');
    if l > 0 {
      BindKeys(p, h, a, b, l, all);
    }
  }

  lemma {:induction false} BindKeys(p: Params, h: Hash, a: seq<Byte>, b: seq<Byte>, l: nat, all: set<seq<Byte>>)
    requires IsParams(p) && IsHash(p, h) && l > 0 && |a| == |b| && FitsSize(|a|)
    requires NoCollision(h, all) && EmittedBelow(p, h, a, l) <= all && EmittedBelow(p, h, b, l) <= all
    requires Keys(p, h, a, l) == Keys(p, h, b, l)
    ensures a == b
    decreases l, |a|, 0
  {
    hide LittleEndian, Pow256, KeyOf, Emitted, Cap, Keys, EmittedBelow;
    var t := Cap(p, l - 1);
    Unfold(p, h, a, l);
    Unfold(p, h, b, l);
    if |a| <= t {
      BindSection(p, h, a, b, l - 1, all);
    } else {
      KeyLength(p, h, a[..t], l - 1);
      KeyLength(p, h, b[..t], l - 1);
      SplitPayload(KeyOf(p, h, a[..t], l - 1), Keys(p, h, a[t..], l), KeyOf(p, h, b[..t], l - 1), Keys(p, h, b[t..], l));
      BindSection(p, h, a[..t], b[..t], l - 1, all);
      BindKeys(p, h, a[t..], b[t..], l, all);
      assert a == a[..t] + a[t..] && b == b[..t] + b[t..];
    }
  }

  lemma Unfold(p: Params, h: Hash, data: seq<Byte>, l: nat)
    requires IsParams(p) && l > 0
    ensures var t := Cap(p, l - 1);
            && t >= 1
            && (|data| <= t ==>
                  && Keys(p, h, data, l) == KeyOf(p, h, data, l - 1)
                  && EmittedBelow(p, h, data, l) == Emitted(p, h, data, l - 1))
            && (|data| > t ==>
                  && Keys(p, h, data, l) == KeyOf(p, h, data[..t], l - 1) + Keys(p, h, data[t..], l)
                  && EmittedBelow(p, h, data, l) == Emitted(p, h, data[..t], l - 1) + EmittedBelow(p, h, data[t..], l))
  {
    hide Cap, KeyOf, Emitted;
    CapPositive(p, l - 1);
  }

  lemma KeyLength(p: Params, h: Hash, data: seq<Byte>, d: nat)
    requires IsParams(p) && IsHash(p, h)
    ensures |KeyOf(p, h, data, d)| == p.hashSize
  {
    hide Payload;
  }

  lemma PayloadEmitted(p: Params, h: Hash, data: seq<Byte>, d: nat)
    requires IsParams(p)
    ensures Payload(p, h, data, Level(p, |data|, d)) in Emitted(p, h, data, d)
  {
    hide Payload;
  }

  /** Two documents with the same root key are the same document, unless the hash
      collides on two of the chunks that were emitted for them. */
  lemma RootKeyBinds(p: Params, h: Hash, a: seq<Byte>, b: seq<Byte>)
    requires IsParams(p) && IsHash(p, h) && FitsSize(|a|) && FitsSize(|b|)
    requires NoCollision(h, AllChunks(p, h, a) + AllChunks(p, h, b))
    requires RootKey(p, h, a) == RootKey(p, h, b)
    ensures a == b
  {
    hide LittleEndian, Pow256, Keys, Payload, Cap;
    var d, d' := Depth(p, |a|, 0), Depth(p, |b|, 0);
    var l, l' := Level(p, |a|, d), Level(p, |b|, d');
    PayloadEmitted(p, h, a, d);
    PayloadEmitted(p, h, b, d');
    SamePayload(p, h, a, l, b, l');
    BindSection(p, h, a, b, d, AllChunks(p, h, a) + AllChunks(p, h, b));
  }

  // ----- every chunk fits -----

  lemma {:induction false} KeysLength(p: Params, h: Hash, data: seq<Byte>, l: nat, k: nat)
    requires IsParams(p) && IsHash(p, h) && l > 0 && k > 0 && |data| <= k * Cap(p, l - 1)
    ensures |Keys(p, h, data, l)| <= k * p.hashSize
    decreases |data|
  {
    CapPositive(p, l - 1);
    var t := Cap(p, l - 1);
    hide KeyOf, Cap;
    if |data| <= t {
      KeyLength(p, h, data, l - 1);
      MulMono(1, k, p.hashSize);
    } else {
      KeyLength(p, h, data[..t], l - 1);
      assert k > 1;
      Distribute(k - 1, 1, t);
      Distribute(k - 1, 1, p.hashSize);
      KeysLength(p, h, data[t..], l, k - 1);
    }
  }

  lemma PayloadFits(p: Params, h: Hash, data: seq<Byte>, l: nat)
    requires IsParams(p) && IsHash(p, h) && |data| <= Cap(p, l)
    ensures |Payload(p, h, data, l)| <= 8 + ChunkSize(p)
  {
    hide KeyOf, Keys, LittleEndian;
    if l > 0 {
      KeysLength(p, h, data, l, p.branches);
    }
  }

  /** No emitted chunk carries more than chunkSize bytes after its size field. */
  lemma {:induction false} EmittedFit(p: Params, h: Hash, data: seq<Byte>, d: nat, x: seq<Byte>)
    requires IsParams(p) && IsHash(p, h) && |data| <= Cap(p, d) && x in Emitted(p, h, data, d)
    ensures |x| <= 8 + ChunkSize(p)
    decreases d, |data|, 2
  {
    hide Payload, Cap, ChunkSize;
    var l := Level(p, |data|, d);
    PayloadFits(p, h, data, l);
    if l > 0 && x != Payload(p, h, data, l) {
      BelowFit(p, h, data, l, x);
    }
  }

  lemma {:induction false} BelowFit(p: Params, h: Hash, data: seq<Byte>, l: nat, x: seq<Byte>)
    requires IsParams(p) && IsHash(p, h) && l > 0 && x in EmittedBelow(p, h, data, l)
    ensures |x| <= 8 + ChunkSize(p)
    decreases l, |data|, 0
  {
    CapPositive(p, l - 1);
    var t := Cap(p, l - 1);
    hide Emitted, Cap, ChunkSize;
    if |data| <= t {
      EmittedFit(p, h, data, l - 1, x);
    } else if x in Emitted(p, h, data[..t], l - 1) {
      EmittedFit(p, h, data[..t], l - 1, x);
    } else {
      BelowFit(p, h, data[t..], l, x);
    }
  }

  lemma AllChunksFit(p: Params, h: Hash, data: seq<Byte>, x: seq<Byte>)
    requires IsParams(p) && IsHash(p, h) && x in AllChunks(p, h, data)
    ensures |x| <= 8 + ChunkSize(p)
  {
    hide Emitted, Cap, ChunkSize;
    EmittedFit(p, h, data, Depth(p, |data|, 0), x);
  }

  // ----- arithmetic of sections -----

  lemma CapDivides(p: Params, d: nat)
    requires IsParams(p) && d > 0
    ensures Cap(p, d) / p.branches == Cap(p, d - 1)
  {
    DivModUnique(Cap(p, d), p.branches, Cap(p, d - 1), 0);
  }

  /** The number of sections: i is below it just when section i starts inside. */
  lemma CeilDiv(n: nat, t: nat, i: nat)
    requires t > 0
    ensures (n + t - 1) / t >= 0
    ensures i < (n + t - 1) / t <==> i * t < n
  {
    var c := (n + t - 1) / t;
    DivModIdentity(n + t - 1, t);
    if c < 0 {
      MulMono(c, -1, t);
    }
    if i < c {
      MulMono(i + 1, c, t);
      Distribute(i, 1, t);
    } else {
      MulMono(c, i, t);
    }
  }

  // ----- finding a section again -----

  /** Section i of a document, its slot in the chunk above it, and its chunks. */
  lemma {:induction false} SectionAt(p: Params, h: Hash, data: seq<Byte>, l: nat, i: nat, pos: nat, slot: nat)
    requires IsParams(p) && IsHash(p, h) && l > 0
    requires pos == i * Cap(p, l - 1) && slot == i * p.hashSize && pos < |data|
    ensures var section := data[pos..Min(pos + Cap(p, l - 1), |data|)];
            && slot + p.hashSize <= |Keys(p, h, data, l)|
            && Keys(p, h, data, l)[slot..slot + p.hashSize] == KeyOf(p, h, section, l - 1)
            && Emitted(p, h, section, l - 1) <= EmittedBelow(p, h, data, l)
    decreases i
  {
    hide KeyOf, Emitted, Cap, Keys, EmittedBelow;
    var t := Cap(p, l - 1);
    Unfold(p, h, data, l);
    if i == 0 {
      assert pos == 0 && slot == 0;
      FirstSection(p, h, data, l);
    } else {
      StepBack(i, t, pos);
      StepBack(i, p.hashSize, slot);
      var rest := data[t..];
      SectionAt(p, h, rest, l, i - 1, pos - t, slot - p.hashSize);
      KeyLength(p, h, data[..t], l - 1);
      assert rest[pos - t..Min(pos, |rest|)] == data[pos..Min(pos + t, |data|)];
      ShiftSlice(KeyOf(p, h, data[..t], l - 1), Keys(p, h, rest, l), slot, p.hashSize);
    }
  }

  lemma StepBack(i: nat, t: nat, pos: nat)
    requires i > 0 && pos == i * t
    ensures pos >= t && pos - t == (i - 1) * t
  {
    Distribute(i - 1, 1, t);
    MulMono(0, i - 1, t);
  }

  lemma FirstSection(p: Params, h: Hash, data: seq<Byte>, l: nat)
    requires IsParams(p) && IsHash(p, h) && l > 0 && data != []
    ensures var section := data[0..Min(Cap(p, l - 1), |data|)];
            && p.hashSize <= |Keys(p, h, data, l)|
            && Keys(p, h, data, l)[0..p.hashSize] == KeyOf(p, h, section, l - 1)
            && Emitted(p, h, section, l - 1) <= EmittedBelow(p, h, data, l)
  {
    CapPositive(p, l - 1);
    var t := Cap(p, l - 1);
    hide KeyOf, Emitted, Cap;
    KeyLength(p, h, data[..Min(t, |data|)], l - 1);
    assert data[0..Min(t, |data|)] == data[..Min(t, |data|)];
    if |data| <= t {
      assert data[..|data|] == data;
    }
  }

  lemma ShiftSlice(a: seq<Byte>, b: seq<Byte>, slot: nat, n: nat)
    requires |a| <= slot && slot + n <= |a| + |b|
    ensures (a + b)[slot..slot + n] == b[slot - |a|..slot - |a| + n]
  {
  }
}
