/** TreeChunker.Split and LazyChunkReader.ReadAt as they run, proved against the
    tree of a document. */
module ChunkerOps {
  import opened Bytes
  import opened Chunker

  /** TreeChunker.split: hands every chunk of the section to storage and returns
      the key that the parent chunk stores. */
  method SplitSection(p: Params, h: Hash, depth0: nat, treeSize0: nat, data: seq<Byte>)
    returns (key: Key, chunks: set<seq<Byte>>)
    requires IsParams(p) && (depth0 > 0 ==> treeSize0 == Cap(p, depth0 - 1))
    ensures key == KeyOf(p, h, data, depth0)
    ensures chunks == Emitted(p, h, data, depth0)
    decreases depth0, 1
  {
    hide Cap, Keys, EmittedBelow, LittleEndian, Emitted, KeyOf;
    var size := |data|;
    var depth, treeSize := SkipLevels(p, size, depth0, treeSize0);
    SectionParts(p, h, data, depth0);
    if depth > 0 {
      CapPositive(p, depth - 1);
    }
    if depth == 0 {
      var chunkData := LittleEndian(size, 8) + data;
      return h(chunkData), {chunkData};
    }
    var chunk;
    chunk, chunks := SplitChildren(p, h, depth, treeSize, data);
    key := h(chunk);
    chunks := chunks + {chunk};
  }

  /** The part of split that fills an intermediate chunk with its children's keys. */
  method SplitChildren(p: Params, h: Hash, depth: nat, treeSize: nat, data: seq<Byte>)
    returns (chunk: seq<Byte>, chunks: set<seq<Byte>>)
    requires IsParams(p) && depth > 0 && treeSize == Cap(p, depth - 1) && data != []
    ensures chunk == Payload(p, h, data, depth) && chunks == EmittedBelow(p, h, data, depth)
    decreases depth, 0
  {
    hide Cap, Keys, EmittedBelow, LittleEndian, Emitted, KeyOf, Payload, Filled;
    CapPositive(p, depth - 1);
    var size := |data|;
    var branchCnt := (size + treeSize - 1) / treeSize;
    CeilDiv(size, treeSize, 0);
    chunk, chunks := LittleEndian(size, 8), {};
    var pos, i := 0, 0;
    FillStart(p, h, data, depth);
    while i < branchCnt
      invariant 0 <= i <= branchCnt && pos == i * treeSize
      invariant i < branchCnt <==> pos < size
      invariant Filled(p, h, data, depth, pos, chunk, chunks)
      decreases branchCnt - i
    {
      var secSize := if size - pos < treeSize then size - pos else treeSize;
      var section := data[pos..pos + secSize];
      if depth > 1 {
        CapDivides(p, depth - 1);
      }
      var subTreeKey, below := SplitSection(p, h, depth - 1, treeSize / p.branches, section);
      FillNext(p, h, data, depth, pos, chunk, chunks);
      CeilDiv(size, treeSize, i + 1);
      Distribute(i, 1, treeSize);
      chunk := chunk + subTreeKey;
      chunks := chunks + below;
      i := i + 1;
      pos := pos + treeSize;
    }
    FillEnd(p, h, data, depth, pos, chunk, chunks);
  }

  /** The chunk is right up to the sections that start at pos or later. */
  ghost predicate Filled(p: Params, h: Hash, data: seq<Byte>, l: nat, pos: nat, chunk: seq<Byte>, chunks: set<seq<Byte>>)
    requires IsParams(p) && l > 0
  {
    if pos < |data| then
      && chunk + Keys(p, h, data[pos..], l) == Payload(p, h, data, l)
      && chunks + EmittedBelow(p, h, data[pos..], l) == EmittedBelow(p, h, data, l)
    else
      chunk == Payload(p, h, data, l) && chunks == EmittedBelow(p, h, data, l)
  }

  lemma FillStart(p: Params, h: Hash, data: seq<Byte>, l: nat)
    requires IsParams(p) && l > 0 && data != []
    ensures Filled(p, h, data, l, 0, LittleEndian(|data|, 8), {})
  {
    hide Keys, EmittedBelow, LittleEndian;
    assert data[0..] == data;
  }

  lemma FillEnd(p: Params, h: Hash, data: seq<Byte>, l: nat, pos: nat, chunk: seq<Byte>, chunks: set<seq<Byte>>)
    requires IsParams(p) && l > 0 && Filled(p, h, data, l, pos, chunk, chunks) && pos >= |data|
    ensures chunk == Payload(p, h, data, l) && chunks == EmittedBelow(p, h, data, l)
  {
  }

  lemma FillNext(p: Params, h: Hash, data: seq<Byte>, l: nat, pos: nat, chunk: seq<Byte>, chunks: set<seq<Byte>>)
    requires IsParams(p) && l > 0 && Filled(p, h, data, l, pos, chunk, chunks) && pos < |data|
    ensures var t := Cap(p, l - 1);
            var section := data[pos..Min(pos + t, |data|)];
            Filled(p, h, data, l, pos + t, chunk + KeyOf(p, h, section, l - 1), chunks + Emitted(p, h, section, l - 1))
  {
    hide Keys, EmittedBelow, Cap, KeyOf, Emitted, Payload;
    NextSection(p, h, data, l, pos);
    var t := Cap(p, l - 1);
    var section := data[pos..Min(pos + t, |data|)];
    if pos + t < |data| {
      var rest := Keys(p, h, data[pos + t..], l);
      assert chunk + KeyOf(p, h, section, l - 1) + rest == chunk + (KeyOf(p, h, section, l - 1) + rest);
    }
  }

  /** The loop that skips the levels a short section does not need. */
  method SkipLevels(p: Params, size: nat, depth0: nat, treeSize0: nat) returns (depth: nat, treeSize: nat)
    requires IsParams(p) && (depth0 > 0 ==> treeSize0 == Cap(p, depth0 - 1))
    ensures depth == Level(p, size, depth0) && (depth > 0 ==> treeSize == Cap(p, depth - 1))
  {
    hide Cap;
    depth, treeSize := depth0, treeSize0;
    while depth > 0 && size < treeSize
      invariant depth > 0 ==> treeSize == Cap(p, depth - 1)
      invariant Level(p, size, depth) == Level(p, size, depth0)
      decreases depth
    {
      if depth > 1 {
        CapDivides(p, depth - 1);
      }
      treeSize := treeSize / p.branches;
      depth := depth - 1;
    }
  }

  lemma SectionParts(p: Params, h: Hash, data: seq<Byte>, d: nat)
    requires IsParams(p)
    ensures var l := Level(p, |data|, d);
            && KeyOf(p, h, data, d) == h(Payload(p, h, data, l))
            && Emitted(p, h, data, d) == {Payload(p, h, data, l)} + if l == 0 then {} else EmittedBelow(p, h, data, l)
  {
  }

  /** One section is taken off the front. */
  lemma NextSection(p: Params, h: Hash, data: seq<Byte>, l: nat, pos: nat)
    requires IsParams(p) && l > 0 && pos < |data|
    ensures var t := Cap(p, l - 1);
            var rest, section := data[pos..], data[pos..Min(pos + t, |data|)];
            if |data| <= pos + t then
              && Keys(p, h, rest, l) == KeyOf(p, h, section, l - 1)
              && EmittedBelow(p, h, rest, l) == Emitted(p, h, section, l - 1)
            else
              && Keys(p, h, rest, l) == KeyOf(p, h, section, l - 1) + Keys(p, h, data[pos + t..], l)
              && EmittedBelow(p, h, rest, l) == Emitted(p, h, section, l - 1) + EmittedBelow(p, h, data[pos + t..], l)
  {
    hide Cap, KeyOf, Emitted;
    CapPositive(p, l - 1);
    var t, rest := Cap(p, l - 1), data[pos..];
    if |data| > pos + t {
      assert rest[..t] == data[pos..pos + t] && rest[t..] == data[pos + t..];
    } else {
      assert data[pos..|data|] == rest;
    }
  }

  /** TreeChunker.Split */
  method Split(p: Params, h: Hash, data: seq<Byte>) returns (key: Key, chunks: set<seq<Byte>>)
    requires IsParams(p)
    ensures key == RootKey(p, h, data) && chunks == AllChunks(p, h, data)
  {
    hide KeyOf, Emitted;
    var depth, treeSize := TreeShape(p, |data|);
    if depth > 0 {
      CapDivides(p, depth);
    }
    key, chunks := SplitSection(p, h, depth, treeSize / p.branches, data);
  }

  /** The loop that Split and ReadAt share: the depth of the tree from its size. */
  method TreeShape(p: Params, size: nat) returns (depth: nat, treeSize: nat)
    requires IsParams(p)
    ensures depth == Depth(p, size, 0) && treeSize == Cap(p, depth)
  {
    depth, treeSize := 0, ChunkSize(p);
    while treeSize < size
      invariant treeSize == Cap(p, depth)
      invariant Depth(p, size, depth) == Depth(p, size, 0)
      decreases size - treeSize
    {
      CapGrows(p, depth);
      treeSize := treeSize * p.branches;
      depth := depth + 1;
    }
  }

  // ----- reading -----

  /** Content addressing: whatever the store holds under the key of one of these
      chunks is that chunk. */
  ghost predicate Honest(h: Hash, store: map<Key, seq<Byte>>, chunks: set<seq<Byte>>) {
    forall x {:trigger h(x)} :: x in chunks && h(x) in store ==> store[h(x)] == x
  }

  ghost predicate Complete(h: Hash, store: map<Key, seq<Byte>>, chunks: set<seq<Byte>>) {
    forall x {:trigger h(x)} :: x in chunks ==> h(x) in store
  }

  /** Everything outside lo up to hi is as before. */
  ghost predicate Outside(before: seq<Byte>, after: seq<Byte>, lo: nat, hi: nat) {
    && |after| == |before| && lo <= hi <= |before|
    && after[..lo] == before[..lo] && after[hi..] == before[hi..]
  }

  /** LazyChunkReader.join: copies bytes off up to eoff of a section into the
      buffer at lo. It fails only if a chunk it needs is missing, and then it has
      written nothing outside its part of the buffer. */
  method Join(p: Params, h: Hash, store: map<Key, seq<Byte>>, b: array<Byte>, lo: nat, off: nat, eoff: nat,
              depth0: nat, treeSize0: nat, chunk: seq<Byte>, ghost data: seq<Byte>) returns (ok: bool)
    requires IsParams(p) && IsHash(p, h) && FitsSize(|data|)
    requires depth0 > 0 ==> treeSize0 == Cap(p, depth0 - 1)
    requires chunk == Payload(p, h, data, Level(p, |data|, depth0))
    requires Honest(h, store, Emitted(p, h, data, depth0))
    requires off < eoff <= |data| && lo + (eoff - off) <= b.Length
    modifies b
    ensures Outside(old(b[..]), b[..], lo, lo + (eoff - off))
    ensures ok ==> b[lo..lo + (eoff - off)] == data[off..eoff]
    ensures Complete(h, store, Emitted(p, h, data, depth0)) ==> ok
    decreases depth0, 1
  {
    hide Cap, Keys, LittleEndian, FromLittleEndian, EmittedBelow, Emitted, Pow256, Level;
    ChunkFields(p, h, data, Level(p, |data|, depth0));
    SectionParts(p, h, data, depth0);
    var size := FromLittleEndian(chunk[..8]);
    var depth, treeSize := SkipLevels(p, size, depth0, treeSize0);
    if depth == 0 {
      forall i | 0 <= i < eoff - off {
        b[lo + i] := chunk[8 + off + i];
      }
      assert b[lo..lo + (eoff - off)] == data[off..eoff];
      return true;
    }
    ok := JoinChildren(p, h, store, b, lo, off, eoff, depth, treeSize, chunk, data);
  }

  lemma ChunkFields(p: Params, h: Hash, data: seq<Byte>, l: nat)
    requires IsParams(p) && FitsSize(|data|)
    ensures var chunk := Payload(p, h, data, l);
            && |chunk| >= 8 && FromLittleEndian(chunk[..8]) == |data|
            && chunk[8..] == if l == 0 then data else Keys(p, h, data, l)
  {
    hide LittleEndian, FromLittleEndian, Keys, Pow256;
    LittleEndianRoundTrip(|data|, 8);
    var chunk := Payload(p, h, data, l);
    assert chunk[..8] == LittleEndian(|data|, 8);
  }

  /** The loop of join over the children that the range touches. */
  method JoinChildren(p: Params, h: Hash, store: map<Key, seq<Byte>>, b: array<Byte>, lo: nat, off: nat, eoff: nat,
                      depth: nat, treeSize: nat, chunk: seq<Byte>, ghost data: seq<Byte>) returns (ok: bool)
    requires IsParams(p) && IsHash(p, h) && FitsSize(|data|)
    requires depth > 0 && treeSize == Cap(p, depth - 1)
    requires |chunk| >= 8 && chunk[8..] == Keys(p, h, data, depth)
    requires Honest(h, store, EmittedBelow(p, h, data, depth))
    requires off < eoff <= |data| && lo + (eoff - off) <= b.Length
    modifies b
    ensures Outside(old(b[..]), b[..], lo, lo + (eoff - off))
    ensures ok ==> b[lo..lo + (eoff - off)] == data[off..eoff]
    ensures Complete(h, store, EmittedBelow(p, h, data, depth)) ==> ok
    decreases depth, 0, 1
  {
    hide Cap, Keys, EmittedBelow, Emitted, Pow256, Level, KeyOf, Outside, Honest, Complete, IsHash;
    hide Times, SectionOf, SectionsUpTo, Copied;
    CopiedStart(b[..], lo, data, off);
    CapPositive(p, depth - 1);
    RangeStart(off, eoff, treeSize);
    var i, end := SectionOf(off, treeSize), SectionsUpTo(eoff, treeSize);
    ghost var cov := off;
    while i < end
      invariant off <= cov <= eoff
      invariant i < end ==> InRange(off, eoff, treeSize, Times(i, treeSize), cov)
      invariant i >= end ==> cov == eoff
      invariant Copied(old(b[..]), b[..], lo, data, off, cov)
      decreases end - i
    {
      var roff, slot := Times(i, treeSize), Times(i, p.hashSize);
      var soff, seoff := Max(roff, off), Min(roff + treeSize, eoff);
      ghost var section := data[roff..Min(roff + treeSize, |data|)];
      ghost var before := b[..];
      SlotKey(p, h, data, depth, chunk, i, roff, slot);
      FewerChunks(h, store, EmittedBelow(p, h, data, depth), Emitted(p, h, section, depth - 1));
      var childKey := chunk[8 + slot..8 + slot + p.hashSize];
      ok := JoinChild(p, h, store, b, lo + (soff - off), soff - roff, seoff - roff, depth, treeSize, childKey, section);
      CopiedStep(old(b[..]), before, b[..], lo, data, off, eoff, soff, seoff, roff, section, ok);
      if !ok {
        return false;
      }
      RangeNext(off, eoff, treeSize, i);
      cov := seoff;
      i := i + 1;
    }
    CopiedEnd(old(b[..]), b[..], lo, data, off, eoff);
    ok := true;
  }

  /** Bytes off up to cov of the document are in the buffer at lo, and nothing
      else has changed. */
  ghost predicate Copied(s0: seq<Byte>, s: seq<Byte>, lo: nat, data: seq<Byte>, off: nat, cov: nat) {
    && off <= cov <= |data| && lo + (cov - off) <= |s0|
    && Outside(s0, s, lo, lo + (cov - off))
    && s[lo..lo + (cov - off)] == data[off..cov]
  }

  lemma CopiedStart(s: seq<Byte>, lo: nat, data: seq<Byte>, off: nat)
    requires lo <= |s| && off <= |data|
    ensures Copied(s, s, lo, data, off, off)
  {
    assert s[lo..lo] == data[off..off];
  }

  lemma CopiedEnd(s0: seq<Byte>, s: seq<Byte>, lo: nat, data: seq<Byte>, off: nat, eoff: nat)
    requires Copied(s0, s, lo, data, off, eoff)
    ensures Outside(s0, s, lo, lo + (eoff - off)) && s[lo..lo + (eoff - off)] == data[off..eoff]
  {
  }

  lemma SliceOfSlice(data: seq<Byte>, a: nat, n: nat, c: nat, d: nat)
    requires a + n <= |data| && c <= d <= n
    ensures data[a..a + n][c..d] == data[a + c..a + d]
  {
    var s, t := data[a..a + n][c..d], data[a + c..a + d];
    assert forall i :: 0 <= i < |s| ==> s[i] == t[i];
  }

  lemma CopiedStep(s0: seq<Byte>, s1: seq<Byte>, s2: seq<Byte>, lo: nat, data: seq<Byte>, off: nat, eoff: nat,
                   soff: nat, seoff: nat, roff: nat, section: seq<Byte>, ok: bool)
    requires Copied(s0, s1, lo, data, off, soff) && soff <= seoff <= eoff <= |data| && lo + (eoff - off) <= |s0|
    requires roff <= soff && roff + |section| <= |data| && section == data[roff..roff + |section|]
    requires seoff - roff <= |section|
    requires Outside(s1, s2, lo + (soff - off), lo + (seoff - off))
    requires ok ==> s2[lo + (soff - off)..lo + (seoff - off)] == section[soff - roff..seoff - roff]
    ensures ok ==> Copied(s0, s2, lo, data, off, seoff)
    ensures Outside(s0, s2, lo, lo + (eoff - off))
  {
    hide Outside;
    SliceOfSlice(data, roff, |section|, soff - roff, seoff - roff);
    CoverStep(s0, s1, s2, lo, lo + (soff - off), lo + (seoff - off), data, off, soff, seoff);
    WidenOutside(s0, s2, lo, lo + (seoff - off), lo + (eoff - off));
  }

  function Times(i: nat, t: nat): nat {
    MulMono(0, i, t);
    i * t
  }

  /** off / t */
  function SectionOf(off: nat, t: nat): nat
    requires t > 0
  {
    QuotientNat(off, t);
    off / t
  }

  /** (eoff + t - 1) / t */
  function SectionsUpTo(eoff: nat, t: nat): nat
    requires t > 0
  {
    QuotientNat(eoff + t - 1, t);
    (eoff + t - 1) / t
  }

  /** The range still to be read begins in the section at roff. */
  predicate InRange(off: nat, eoff: nat, t: nat, roff: nat, cov: nat) {
    roff < eoff && cov == Max(roff, off) && off < roff + t
  }

  lemma RangeNext(off: nat, eoff: nat, t: nat, i: nat)
    requires t > 0 && off < Times(i, t) + t && Times(i, t) < eoff
    ensures Times(i + 1, t) == Times(i, t) + t
    ensures i + 1 < SectionsUpTo(eoff, t) <==> Times(i, t) + t < eoff
  {
    Distribute(i, 1, t);
    CeilDiv(eoff, t, i + 1);
  }

  lemma CoverStep(s0: seq<Byte>, s1: seq<Byte>, s2: seq<Byte>, lo: nat, mid: nat, hi: nat,
                  data: seq<Byte>, off: nat, cov: nat, next: nat)
    requires Outside(s0, s1, lo, mid) && Outside(s1, s2, mid, hi)
    requires off <= cov <= next <= |data| && mid == lo + (cov - off) && hi == lo + (next - off)
    requires s1[lo..mid] == data[off..cov]
    ensures Outside(s0, s2, lo, hi)
    ensures s2[mid..hi] == data[cov..next] ==> s2[lo..hi] == data[off..next]
  {
    assert s2[..lo] == s2[..mid][..lo] && s1[..mid][..lo] == s1[..lo];
    assert s1[hi..] == s1[mid..][hi - mid..] && s0[hi..] == s0[mid..][hi - mid..];
    assert s2[lo..mid] == s2[..mid][lo..] && s1[lo..mid] == s1[..mid][lo..];
    assert s2[lo..hi] == s2[lo..mid] + s2[mid..hi];
    assert data[off..next] == data[off..cov] + data[cov..next];
  }

  lemma WidenOutside(s: seq<Byte>, t: seq<Byte>, lo: nat, hi: nat, hi': nat)
    requires Outside(s, t, lo, hi) && hi <= hi' <= |s|
    ensures Outside(s, t, lo, hi')
  {
    assert t[hi'..] == t[hi..][hi' - hi..] && s[hi'..] == s[hi..][hi' - hi..];
  }

  /** The key in slot i of an intermediate chunk is the key of section i. */
  lemma SlotKey(p: Params, h: Hash, data: seq<Byte>, l: nat, chunk: seq<Byte>, i: nat, pos: nat, slot: nat)
    requires IsParams(p) && IsHash(p, h) && l > 0 && |chunk| >= 8 && chunk[8..] == Keys(p, h, data, l)
    requires pos == Times(i, Cap(p, l - 1)) && slot == Times(i, p.hashSize) && pos < |data|
    ensures var section := data[pos..Min(pos + Cap(p, l - 1), |data|)];
            && 8 + slot + p.hashSize <= |chunk|
            && chunk[8 + slot..8 + slot + p.hashSize] == KeyOf(p, h, section, l - 1)
            && Emitted(p, h, section, l - 1) <= EmittedBelow(p, h, data, l)
  {
    hide KeyOf, Emitted, Cap, Keys, EmittedBelow;
    SectionAt(p, h, data, l, i, pos, slot);
    assert chunk[8 + slot..8 + slot + p.hashSize] == chunk[8..][slot..slot + p.hashSize];
  }

  /** One child: fetch its chunk and read the part of the section that is wanted. */
  method JoinChild(p: Params, h: Hash, store: map<Key, seq<Byte>>, b: array<Byte>, lo: nat, off: nat, eoff: nat,
                   depth: nat, treeSize: nat, childKey: Key, ghost section: seq<Byte>) returns (ok: bool)
    requires IsParams(p) && IsHash(p, h) && FitsSize(|section|)
    requires depth > 0 && treeSize == Cap(p, depth - 1)
    requires childKey == KeyOf(p, h, section, depth - 1)
    requires Honest(h, store, Emitted(p, h, section, depth - 1))
    requires off < eoff <= |section| && lo + (eoff - off) <= b.Length
    modifies b
    ensures Outside(old(b[..]), b[..], lo, lo + (eoff - off))
    ensures ok ==> b[lo..lo + (eoff - off)] == section[off..eoff]
    ensures Complete(h, store, Emitted(p, h, section, depth - 1)) ==> ok
    decreases depth, 0, 0
  {
    hide Cap, Emitted, Pow256, Level, KeyOf, Outside, Payload;
    ChildChunk(p, h, section, depth - 1);
    if childKey !in store {
      MissingChild(b[..], lo, lo + (eoff - off));
      return false;
    }
    QuotientNat(treeSize, p.branches);
    if depth > 1 {
      CapDivides(p, depth - 1);
    }
    ok := Join(p, h, store, b, lo, off, eoff, depth - 1, treeSize / p.branches, store[childKey], section);
  }

  lemma FewerChunks(h: Hash, store: map<Key, seq<Byte>>, all: set<seq<Byte>>, some: set<seq<Byte>>)
    requires some <= all
    ensures Honest(h, store, all) ==> Honest(h, store, some)
    ensures Complete(h, store, all) ==> Complete(h, store, some)
  {
  }

  lemma MissingChild(s: seq<Byte>, lo: nat, hi: nat)
    requires lo <= hi <= |s|
    ensures Outside(s, s, lo, hi)
  {
  }

  lemma ChildChunk(p: Params, h: Hash, data: seq<Byte>, d: nat)
    requires IsParams(p)
    ensures KeyOf(p, h, data, d) == h(Payload(p, h, data, Level(p, |data|, d)))
    ensures Payload(p, h, data, Level(p, |data|, d)) in Emitted(p, h, data, d)
  {
    hide Payload;
  }

  function Max(a: nat, b: nat): nat {
    if a < b then b else a
  }

  lemma RangeStart(off: nat, eoff: nat, t: nat)
    requires t > 0 && off < eoff
    ensures var i := SectionOf(off, t);
            i < SectionsUpTo(eoff, t) && Times(i, t) <= off < Times(i, t) + t
  {
    DivModIdentity(off, t);
    CeilDiv(eoff, t, off / t);
  }

  lemma QuotientNat(x: nat, m: nat)
    requires m > 0
    ensures x / m >= 0
  {
    QuotientBound(x, m, x + 1);
  }

  datatype ReadResult = Read(n: nat, eof: bool) | NotFound

  /** LazyChunkReader.ReadAt for a range inside the document. With any honest
      store the bytes it reports are the bytes of the document; it reports a
      missing chunk only if one is missing. */
  method ReadAt(p: Params, h: Hash, store: map<Key, seq<Byte>>, key: Key, b: array<Byte>, off: nat,
                ghost data: seq<Byte>) returns (r: ReadResult)
    requires IsParams(p) && IsHash(p, h) && FitsSize(|data|)
    requires key == RootKey(p, h, data) && Honest(h, store, AllChunks(p, h, data))
    requires off + b.Length <= |data|
    modifies b
    ensures r.Read? ==> r.n == b.Length && b[..] == data[off..off + b.Length]
    ensures r.Read? ==> (r.eof <==> b.Length > 0 && off + b.Length == |data|)
    ensures Complete(h, store, AllChunks(p, h, data)) ==> r.Read?
  {
    hide Cap, Keys, Emitted, LittleEndian, FromLittleEndian, Pow256, KeyOf, Level, Outside, Payload, Depth;
    if b.Length == 0 {
      return Read(0, false);
    }
    ghost var d := Depth(p, |data|, 0);
    ChildChunk(p, h, data, d);
    if key !in store {
      return NotFound;
    }
    var chunk := store[key];
    ChunkFields(p, h, data, Level(p, |data|, d));
    var size := FromLittleEndian(chunk[..8]);
    var depth, treeSize := TreeShape(p, size);
    QuotientNat(treeSize, p.branches);
    if depth > 0 {
      CapDivides(p, depth);
    }
    var ok := Join(p, h, store, b, 0, off, off + b.Length, depth, treeSize / p.branches, chunk, data);
    if !ok {
      return NotFound;
    }
    assert b[0..b.Length] == b[..];
    r := Read(b.Length, off + b.Length >= size);
  }

  /** The store that receives exactly the given chunks. */
  function StoreOf(h: Hash, chunks: set<seq<Byte>>): map<Key, seq<Byte>>
    requires NoCollision(h, chunks)
  {
    map x | x in chunks :: h(x) := x
  }

  /** Splitting a document and reading any range of it gives that range back. */
  method SplitThenRead(p: Params, h: Hash, data: seq<Byte>, off: nat, b: array<Byte>)
    requires IsParams(p) && IsHash(p, h) && FitsSize(|data|) && off + b.Length <= |data|
    requires NoCollision(h, AllChunks(p, h, data))
    modifies b
    ensures b[..] == data[off..off + b.Length]
  {
    hide AllChunks, RootKey;
    var key, chunks := Split(p, h, data);
    var r := ReadAt(p, h, StoreOf(h, chunks), key, b, off, data);
  }
}
