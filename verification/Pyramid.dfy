/** PyramidChunker: building the same tree bottom up, with workers that finish
    the leaf chunks in any order. */
module Pyramid {
  import opened Bytes
  import opened Chunker

  /** A node of the memoization tree. */
  datatype Node = Node(pending: int, size: nat, children: seq<Key>)

  type Levels = seq<map<nat, Node>>

  /** How many results a node waits for. The last node of a level waits for what is left over. */
  function PendingFor(p: Params, chunks: nat, pow: nat, index: nat): nat
    requires IsParams(p) && pow >= p.branches && pow / p.branches > 0
  {
    if index / pow == chunks / pow
    then ((chunks + pow / p.branches - 1) / (pow / p.branches)) % p.branches
    else p.branches
  }

  /** The locked section of processor: put one hash into its node, creating the
      node if this is its first result. None when the slot is not there, where the
      source panics. */
  function Record(p: Params, chunks: nat, level: map<nat, Node>, pow: nat, index: nat, hash: Key, size: nat): Option<Node>
    requires IsParams(p) && pow >= p.branches && pow / p.branches > 0
  {
    var pending := PendingFor(p, chunks, pow, index);
    var node := if index / pow in level then level[index / pow] else Node(pending, 0, seq(pending, _ => []));
    var i := (index / (pow / p.branches)) % p.branches;
    if 0 <= i < |node.children| then Some(Node(node.pending - 1, node.size + size, node.children[i := hash])) else None
  }

  function Concat(keys: seq<Key>): seq<Byte> {
    if keys == [] then [] else keys[0] + Concat(keys[1..])
  }

  /** The chunk of a node whose children are all known. */
  function NodeChunk(n: Node): seq<Byte> {
    LittleEndian(n.size, 8) + Concat(n.children)
  }

  /** In a document of at most branches chunks every leaf belongs to node 0 of
      its level and every slot is the leaf's own number. */
  lemma OneNode(p: Params, chunks: nat, index: nat)
    requires IsParams(p) && 1 <= chunks <= p.branches && index < chunks
    ensures p.branches / p.branches == 1 && index / p.branches == 0 && index % p.branches == index
    ensures (index / (p.branches / p.branches)) % p.branches == index
    ensures PendingFor(p, chunks, p.branches, index) == chunks
  {
    var b := p.branches;
    DivModUnique(b, b, 1, 0);
    DivModUnique(index, b, 0, index);
    assert (chunks + 1 - 1) / 1 == chunks;
    if chunks < b {
      DivModUnique(chunks, b, 0, chunks);
    }
  }

  lemma TopNode(p: Params, chunks: nat, index: nat)
    requires IsParams(p) && 1 <= chunks <= p.branches && index < chunks
    ensures var pow := p.branches * p.branches;
            && pow >= p.branches && pow / p.branches == p.branches
            && index / pow == 0 && (index / p.branches) % p.branches == 0
            && PendingFor(p, chunks, pow, index) == 1
  {
    var b := p.branches;
    var pow := b * b;
    MulMono(1, b, b);
    MulMono(2, b, b);
    DivModUnique(pow, b, b, 0);
    DivModUnique(index, pow, 0, index);
    DivModUnique(index, b, 0, index);
    DivModUnique(0, b, 0, 0);
    DivModUnique(chunks, pow, 0, chunks);
    DivModUnique(chunks + b - 1, b, 1, chunks - 1);
    DivModUnique(1, b, 0, 1);
  }

  predicate IsPow(p: Params, pow: nat) {
    p.branches > 0 && pow >= p.branches && pow / p.branches > 0
  }

  lemma NextPow(p: Params, pow: nat)
    requires IsParams(p) && IsPow(p, pow)
    ensures IsPow(p, pow * p.branches)
  {
    DivModUnique(pow * p.branches, p.branches, pow, 0);
    MulMono(1, pow, p.branches);
  }

  /** What one task does to the levels, from the level it has reached upwards;
      None for a panic. */
  function Processed(p: Params, h: Hash, chunks: nat, levels: Levels, depth: nat, pow: nat, index: nat,
                     chunk: seq<Byte>, size: nat): (levels': Option<Levels>)
    requires IsParams(p) && IsPow(p, pow) && depth < |levels|
    ensures levels'.Some? ==> |levels'.value| == |levels|
    decreases depth
  {
    var recorded := Record(p, chunks, levels[depth], pow, index, h(chunk), size);
    if recorded.None? then None
    else
      var node := recorded.value;
      var l2 := Stored(p, levels, depth, pow, index, node);
      if node.pending > 0 || depth == 0 then Some(l2)
      else
        NextPow(p, pow);
        Processed(p, h, chunks, l2, depth - 1, pow * p.branches, index, NodeChunk(node), node.size)
  }

  /** The node is stored, and the finished node below it is forgotten. */
  function Stored(p: Params, levels: Levels, depth: nat, pow: nat, index: nat, node: Node): (levels': Levels)
    requires IsParams(p) && IsPow(p, pow) && depth < |levels|
    ensures |levels'| == |levels|
  {
    var at: nat, below: nat := index / pow, index / (pow / p.branches);
    var upper: map<nat, Node> := levels[depth][at := node];
    var l1 := levels[depth := upper];
    if depth + 1 < |levels| then
      var lower: map<nat, Node> := l1[depth + 1] - {below};
      l1[depth + 1 := lower]
    else l1
  }

  /** PyramidChunker.processor on one task. */
  method Process(p: Params, h: Hash, chunks: nat, levels0: Levels, index: nat, chunk0: seq<Byte>, size0: nat)
    returns (result: Option<Levels>)
    requires IsParams(p) && IsPow(p, p.branches) && levels0 != []
    ensures result == Processed(p, h, chunks, levels0, |levels0| - 1, p.branches, index, chunk0, size0)
  {
    hide Record, Stored, NodeChunk;
    var levels := levels0;
    var depth: int, pow: nat, size: nat, chunk := |levels| - 1, p.branches, size0, chunk0;
    ghost var goal := Processed(p, h, chunks, levels, depth, pow, index, chunk, size);
    while depth >= 0
      invariant -1 <= depth < |levels| && IsPow(p, pow)
      invariant depth >= 0 ==> Processed(p, h, chunks, levels, depth, pow, index, chunk, size) == goal
      invariant depth < 0 ==> Some(levels) == goal
      decreases depth
    {
      var recorded := Record(p, chunks, levels[depth], pow, index, h(chunk), size);
      if recorded.None? {
        return None;
      }
      var node := recorded.value;
      levels := Stored(p, levels, depth, pow, index, node);
      if node.pending > 0 {
        return Some(levels);
      }
      NextPow(p, pow);
      size, chunk := node.size, NodeChunk(node);
      depth, pow := depth - 1, pow * p.branches;
    }
    result := Some(levels);
  }

  /** Smallest k with branches^k at least chunks: the rounded-up logarithm. */
  function LogCeil(p: Params, chunks: nat, pow: nat, k: nat): nat
    requires IsParams(p) && pow > 0
    decreases chunks - pow
  {
    if pow >= chunks then k
    else
      MulMono(2, p.branches, pow);
      LogCeil(p, chunks, p.branches * pow, k + 1)
  }

  /** An order in which the leaf tasks are taken up: each exactly once. */
  ghost predicate IsOrder(order: seq<nat>, chunks: nat) {
    && |order| == chunks
    && (forall i :: 0 <= i < |order| ==> order[i] < chunks)
    && (forall i, j :: 0 <= i < j < |order| ==> order[i] != order[j])
    && (forall c: nat :: c < chunks ==> c in order)
  }

  // ----- documents of at most branches chunks -----

  ghost predicate InScope(p: Params, data: seq<Byte>, chunks: nat) {
    && IsParams(p) && 1 <= chunks <= p.branches && data != []
    && Leaves(p, data, chunks)
  }

  /** The document has this many leaves. */
  ghost predicate Leaves(p: Params, data: seq<Byte>, chunks: nat) {
    forall c: nat :: c < chunks <==> Start(p, c) < |data|
  }

  /** Where leaf c starts. */
  function Start(p: Params, c: nat): nat {
    MulMono(0, c, ChunkSize(p));
    c * ChunkSize(p)
  }

  function LeafAt(p: Params, data: seq<Byte>, c: nat): seq<Byte>
    requires Start(p, c) < |data|
  {
    data[Start(p, c)..Min(Start(p, c) + ChunkSize(p), |data|)]
  }

  function TaskAt(p: Params, data: seq<Byte>, c: nat): seq<Byte>
    requires Start(p, c) < |data|
  {
    LittleEndian(|LeafAt(p, data, c)|, 8) + LeafAt(p, data, c)
  }

  ghost function SizeSum(p: Params, data: seq<Byte>, chunks: nat, order: seq<nat>, k: nat): nat
    requires InScope(p, data, chunks) && k <= |order|
    requires forall i :: 0 <= i < |order| ==> order[i] < chunks
  {
    if k == 0 then 0 else SizeSum(p, data, chunks, order, k - 1) + |LeafAt(p, data, order[k - 1])|
  }

  /** The node after the first k tasks, whatever their order. */
  ghost predicate LeafNode(p: Params, h: Hash, data: seq<Byte>, chunks: nat, order: seq<nat>, k: nat, n: Node)
    requires InScope(p, data, chunks) && IsOrder(order, chunks) && k <= chunks
  {
    && n.pending == chunks - k && |n.children| == chunks
    && n.size == SizeSum(p, data, chunks, order, k)
    && forall j :: 0 <= j < k ==> n.children[order[j]] == h(TaskAt(p, data, order[j]))
  }

  ghost predicate LevelOk(p: Params, h: Hash, data: seq<Byte>, chunks: nat, order: seq<nat>, k: nat, level: map<nat, Node>)
    requires InScope(p, data, chunks) && IsOrder(order, chunks) && k <= chunks
  {
    if k == 0 then level == map[] else level.Keys == {0} && LeafNode(p, h, data, chunks, order, k, level[0])
  }

  lemma RecordLeaf(p: Params, h: Hash, data: seq<Byte>, chunks: nat, order: seq<nat>, k: nat, level: map<nat, Node>)
    requires InScope(p, data, chunks) && IsOrder(order, chunks) && k < chunks
    requires LevelOk(p, h, data, chunks, order, k, level) && IsPow(p, p.branches)
    ensures var c := order[k];
            var n := Record(p, chunks, level, p.branches, c, h(TaskAt(p, data, c)), |LeafAt(p, data, c)|);
            n.Some? && LeafNode(p, h, data, chunks, order, k + 1, n.value)
  {
    hide LittleEndian, ChunkSize, TaskAt, LeafAt, Start, PendingFor;
    var c := order[k];
    OneNode(p, chunks, c);
    var n := Record(p, chunks, level, p.branches, c, h(TaskAt(p, data, c)), |LeafAt(p, data, c)|).value;
    assert n.pending == chunks - (k + 1);
    assert |n.children| == chunks;
    assert n.size == SizeSum(p, data, chunks, order, k + 1);
    assert n.children[c] == h(TaskAt(p, data, c));
  }

  lemma {:induction false} SizeSumFormula(p: Params, data: seq<Byte>, chunks: nat, order: seq<nat>, k: nat)
    requires InScope(p, data, chunks) && IsOrder(order, chunks) && k <= chunks
    ensures SizeSum(p, data, chunks, order, k)
            == Start(p, k) - (if chunks - 1 in order[..k] then Start(p, chunks) - |data| else 0)
  {
    if k > 0 {
      SizeSumFormula(p, data, chunks, order, k - 1);
      hide SizeSum, ChunkSize;
      var c := order[k - 1];
      LeafSize(p, data, chunks, c);
      StartNext(p, k - 1);
      assert order[..k] == order[..k - 1] + [c];
    }
  }

  lemma StartNext(p: Params, c: nat)
    ensures Start(p, c + 1) == Start(p, c) + ChunkSize(p)
  {
    Distribute(c, 1, ChunkSize(p));
  }

  lemma LeafSize(p: Params, data: seq<Byte>, chunks: nat, c: nat)
    requires InScope(p, data, chunks) && c < chunks
    ensures |LeafAt(p, data, c)| == if c == chunks - 1 then ChunkSize(p) - (Start(p, chunks) - |data|) else ChunkSize(p)
  {
    hide ChunkSize;
    StartNext(p, c);
    assert c + 1 < chunks <==> Start(p, c + 1) < |data|;
    assert !(chunks < chunks);
    assert Start(p, chunks) >= |data|;
  }

  lemma WholeSize(p: Params, data: seq<Byte>, chunks: nat, order: seq<nat>)
    requires InScope(p, data, chunks) && IsOrder(order, chunks)
    ensures SizeSum(p, data, chunks, order, chunks) == |data|
  {
    hide SizeSum, ChunkSize, Start;
    SizeSumFormula(p, data, chunks, order, chunks);
    assert order[..chunks] == order;
    assert chunks - 1 in order;
  }

  /** All children in place: their concatenation is the content of the parent chunk. */
  lemma {:induction false} ConcatIsKeys(p: Params, h: Hash, data: seq<Byte>, children: seq<Key>)
    requires IsParams(p) && data != []
    requires forall c: nat :: c < |children| <==> Start(p, c) < |data|
    requires forall c :: 0 <= c < |children| ==> children[c] == h(TaskAt(p, data, c))
    ensures Concat(children) == Keys(p, h, data, 1)
    decreases |children|
  {
    hide LittleEndian, ChunkSize, Keys, KeyOf, Emitted, EmittedBelow;
    var t := ChunkSize(p);
    Unfold(p, h, data, 1);
    assert Cap(p, 0) == t;
    assert Start(p, 0) == 0;
    StartNext(p, 0);
    assert LeafAt(p, data, 0) == data[..Min(t, |data|)];
    LeafKey(p, h, data[..Min(t, |data|)]);
    if |data| <= t {
      assert data[..|data|] == data;
      assert |children| == 1;
      assert children[1..] == [];
      assert Concat(children) == children[0] + Concat([]) == children[0];
    } else {
      ShiftLeaves(p, h, data, children);
      ConcatIsKeys(p, h, data[t..], children[1..]);
    }
  }

  lemma LeafKey(p: Params, h: Hash, leaf: seq<Byte>)
    requires IsParams(p)
    ensures KeyOf(p, h, leaf, 0) == h(LittleEndian(|leaf|, 8) + leaf)
  {
    hide LittleEndian;
  }

  lemma TailSlice(data: seq<Byte>, t: nat, a: nat, b: nat)
    requires t <= |data| && a <= b <= |data| - t
    ensures data[t..][a..b] == data[t + a..t + b]
  {
  }

  lemma ShiftLeaves(p: Params, h: Hash, data: seq<Byte>, children: seq<Key>)
    requires IsParams(p) && |data| > ChunkSize(p) && |children| > 0
    requires forall c: nat :: c < |children| <==> Start(p, c) < |data|
    requires forall c :: 0 <= c < |children| ==> children[c] == h(TaskAt(p, data, c))
    ensures forall c: nat :: c < |children[1..]| <==> Start(p, c) < |data[ChunkSize(p)..]|
    ensures forall c :: 0 <= c < |children[1..]| ==> children[1..][c] == h(TaskAt(p, data[ChunkSize(p)..], c))
  {
    hide LittleEndian, ChunkSize, Start;
    var rest := data[ChunkSize(p)..];
    forall c: nat
      ensures c < |children| - 1 <==> Start(p, c) < |rest|
    {
      StartNext(p, c);
    }
    forall c | 0 <= c < |children| - 1
      ensures children[1..][c] == h(TaskAt(p, rest, c))
    {
      StartNext(p, c);
      assert Start(p, c + 1) < |data|;
      TailSlice(data, ChunkSize(p), Start(p, c), Min(Start(p, c) + ChunkSize(p), |rest|));
    }
  }

  // ----- the whole split -----

  /** The state of the memoization tree after the first k tasks. */
  ghost predicate TreeOk(p: Params, h: Hash, data: seq<Byte>, chunks: nat, order: seq<nat>, k: nat, levels: Levels)
    requires InScope(p, data, chunks) && IsOrder(order, chunks) && k <= chunks
  {
    if chunks == 1 then
      |levels| == 1 && LevelOk(p, h, data, chunks, order, k, levels[0])
    else
      && |levels| == 2
      && (k < chunks ==> levels[0] == map[] && LevelOk(p, h, data, chunks, order, k, levels[1]))
      && (k == chunks ==> 0 in levels[0] && levels[0][0].children == [RootKey(p, h, data)] && levels[1] == map[])
  }

  lemma FullNode(p: Params, h: Hash, data: seq<Byte>, chunks: nat, order: seq<nat>, n: Node)
    requires InScope(p, data, chunks) && IsOrder(order, chunks) && LeafNode(p, h, data, chunks, order, chunks, n)
    ensures n.size == |data|
    ensures forall c :: 0 <= c < chunks ==> n.children[c] == h(TaskAt(p, data, c))
  {
    hide SizeSum, TaskAt, ChunkSize, Start;
    WholeSize(p, data, chunks, order);
    forall c | 0 <= c < chunks
      ensures n.children[c] == h(TaskAt(p, data, c))
    {
      assert c in order;
      var j :| 0 <= j < |order| && order[j] == c;
    }
  }

  /** The tree chunker's root for a document of two up to branches chunks. */
  lemma TwoLevelRoot(p: Params, h: Hash, data: seq<Byte>, chunks: nat, n: Node)
    requires InScope(p, data, chunks) && chunks >= 2 && |n.children| == chunks && n.size == |data|
    requires forall c :: 0 <= c < chunks ==> n.children[c] == h(TaskAt(p, data, c))
    ensures h(NodeChunk(n)) == RootKey(p, h, data)
  {
    hide LittleEndian, Keys, ChunkSize, Cap, Start, TaskAt;
    ConcatIsKeys(p, h, data, n.children);
    ScopeBounds(p, data, chunks);
    ShallowDepth(p, |data|);
    assert KeyOf(p, h, data, 1) == h(Payload(p, h, data, 1));
    assert Payload(p, h, data, 1) == LittleEndian(|data|, 8) + Keys(p, h, data, 1);
  }

  lemma ScopeBounds(p: Params, data: seq<Byte>, chunks: nat)
    requires InScope(p, data, chunks)
    ensures |data| <= p.branches * ChunkSize(p)
    ensures chunks >= 2 <==> |data| > ChunkSize(p)
  {
    hide ChunkSize;
    assert !(chunks < chunks);
    assert Start(p, chunks) >= |data|;
    MulMono(chunks, p.branches, ChunkSize(p));
    StartNext(p, 0);
    assert 1 < chunks <==> Start(p, 1) < |data|;
  }

  lemma ShallowDepth(p: Params, size: nat)
    requires IsParams(p) && size <= p.branches * ChunkSize(p)
    ensures size <= ChunkSize(p) ==> Depth(p, size, 0) == 0
    ensures size > ChunkSize(p) ==> Depth(p, size, 0) == 1 && Level(p, size, 1) == 1
  {
    hide ChunkSize;
    assert Cap(p, 0) == ChunkSize(p);
    assert Cap(p, 1) == p.branches * ChunkSize(p);
    hide Cap;
    if size > ChunkSize(p) {
      CapGrows(p, 0);
      assert Depth(p, size, 0) == Depth(p, size, 1);
    }
  }

  lemma OneLevelRoot(p: Params, h: Hash, data: seq<Byte>)
    requires InScope(p, data, 1)
    ensures h(TaskAt(p, data, 0)) == RootKey(p, h, data)
  {
    hide LittleEndian, Keys, ChunkSize, Cap;
    ScopeBounds(p, data, 1);
    ShallowDepth(p, |data|);
    assert Start(p, 0) == 0;
    assert LeafAt(p, data, 0) == data;
    LeafKey(p, h, data);
  }

  lemma TaskStep(p: Params, h: Hash, data: seq<Byte>, chunks: nat, order: seq<nat>, k: nat, levels: Levels)
    requires InScope(p, data, chunks) && IsOrder(order, chunks) && k < chunks && IsPow(p, p.branches)
    requires TreeOk(p, h, data, chunks, order, k, levels)
    ensures var c := order[k];
            var l2 := Processed(p, h, chunks, levels, |levels| - 1, p.branches, c, TaskAt(p, data, c), |LeafAt(p, data, c)|);
            l2.Some? && TreeOk(p, h, data, chunks, order, k + 1, l2.value)
  {
    hide TaskAt, LeafAt, LittleEndian, ChunkSize, LeafNode, RootKey, Record, Start;
    var c, bottom := order[k], levels[|levels| - 1];
    RecordLeaf(p, h, data, chunks, order, k, bottom);
    var n := Record(p, chunks, bottom, p.branches, c, h(TaskAt(p, data, c)), |LeafAt(p, data, c)|).value;
    NodePending(p, h, data, chunks, order, k + 1, n);
    NextPow(p, p.branches);
    if chunks > 1 && k + 1 == chunks {
      LastTask(p, h, data, chunks, order, levels, c, n, p.branches * p.branches);
    } else {
      OneNode(p, chunks, c);
    }
  }

  lemma NodePending(p: Params, h: Hash, data: seq<Byte>, chunks: nat, order: seq<nat>, k: nat, n: Node)
    requires InScope(p, data, chunks) && IsOrder(order, chunks) && k <= chunks
    requires LeafNode(p, h, data, chunks, order, k, n)
    ensures n.pending == chunks - k
  {
  }

  lemma LastTask(p: Params, h: Hash, data: seq<Byte>, chunks: nat, order: seq<nat>, levels: Levels, c: nat, n: Node,
                 pow: nat)
    requires InScope(p, data, chunks) && IsOrder(order, chunks) && 2 <= chunks && c < chunks && IsPow(p, p.branches)
    requires pow == p.branches * p.branches && IsPow(p, pow)
    requires |levels| == 2 && levels[0] == map[] && levels[1].Keys <= {0} && LeafNode(p, h, data, chunks, order, chunks, n)
    ensures var l2 := Stored(p, levels, 1, p.branches, c, n);
            var l3 := Processed(p, h, chunks, l2, 0, pow, c, NodeChunk(n), n.size);
            l3.Some? && TreeOk(p, h, data, chunks, order, chunks, l3.value)
  {
    hide TaskAt, LeafAt, LittleEndian, ChunkSize, LeafNode, RootKey, NodeChunk, PendingFor;
    FullNode(p, h, data, chunks, order, n);
    NodePending(p, h, data, chunks, order, chunks, n);
    NodeWidth(p, h, data, chunks, order, n);
    TwoLevelRoot(p, h, data, chunks, n);
    TopNode(p, chunks, c);
    OneNode(p, chunks, c);
    var l2 := Stored(p, levels, 1, p.branches, c, n);
    assert l2[1].Keys == {0} && l2[1] - {0} == map[];
  }

  lemma NodeWidth(p: Params, h: Hash, data: seq<Byte>, chunks: nat, order: seq<nat>, n: Node)
    requires InScope(p, data, chunks) && IsOrder(order, chunks) && LeafNode(p, h, data, chunks, order, chunks, n)
    ensures |n.children| == chunks
  {
  }

  /** PyramidChunker.Split with any order of the leaf tasks; None for a panic. For
      a document that fits into one level of branching the root key is the tree
      chunker's. When the second level wraps, every order panics. */
  method Split(p: Params, h: Hash, data: seq<Byte>, order: seq<nat>) returns (key: Option<Key>)
    requires IsParams(p) && 1 <= |data|
    requires IsOrder(order, ChunkCount(p, |data|))
    ensures |data| <= p.branches * ChunkSize(p) ==> key == Some(RootKey(p, h, data))
    ensures p.branches * (p.branches - 1) < ChunkCount(p, |data|) < p.branches * p.branches ==> key == None
  {
    hide TaskAt, LeafAt, LittleEndian, ChunkSize, RootKey, Processed, TreeOk, LeafNode, Start, LogCeil, ChunkCount, IsOrder,
         Leaves, Stalled;
    var chunks := ChunkCount(p, |data|);
    ghost var fits := |data| <= p.branches * ChunkSize(p);
    ghost var wraps := p.branches * (p.branches - 1) < chunks < p.branches * p.branches;
    CountLeaves(p, data);
    OrderCount(order, chunks);
    var result: Option<Levels> := Some(seq(LogCeil(p, chunks, 1, 0) + 1, _ => map[]));
    if fits {
      CountInScope(p, data);
      DepthInScope(p, chunks);
      EmptyTree(p, h, data, chunks, order, result.value);
    }
    if wraps {
      StalledStart(p, chunks, order, result.value);
    }
    for k := 0 to |order|
      invariant result.Some? ==> result.value != []
      invariant fits ==> |order| == chunks && result.Some? && TreeOk(p, h, data, chunks, order, k, result.value)
      invariant wraps && result.Some? ==> Stalled(p, chunks, order, k, result.value)
    {
      if result.None? {
        return None;
      }
      var c := order[k];
      OrderedLeaf(p, data, chunks, order, k);
      if fits {
        TaskStep(p, h, data, chunks, order, k, result.value);
      }
      if wraps {
        StalledStep(p, h, chunks, order, k, result.value, TaskAt(p, data, c), |LeafAt(p, data, c)|);
      }
      result := Process(p, h, chunks, result.value, c, TaskAt(p, data, c), |LeafAt(p, data, c)|);
    }
    if result.None? {
      return None;
    }
    if wraps {
      StalledEnd(p, chunks, order, result.value);
    }
    if fits {
      DoneTree(p, h, data, chunks, order, result.value);
    }
    var levels: Levels := result.value;
    if 0 !in levels[0] || levels[0][0].children == [] {
      return None;
    }
    key := Some(levels[0][0].children[0]);
  }

  /** (size + chunkSize - 1) / chunkSize */
  function ChunkCount(p: Params, size: nat): nat
    requires IsParams(p)
  {
    CapPositive(p, 0);
    CeilDiv(size, ChunkSize(p), 0);
    (size + ChunkSize(p) - 1) / ChunkSize(p)
  }

  lemma CountLeaves(p: Params, data: seq<Byte>)
    requires IsParams(p)
    ensures Leaves(p, data, ChunkCount(p, |data|)) && IsPow(p, p.branches)
  {
    CapPositive(p, 0);
    var t := ChunkSize(p);
    hide ChunkSize;
    forall c: nat
      ensures c < ChunkCount(p, |data|) <==> Start(p, c) < |data|
    {
      CeilDiv(|data|, t, c);
    }
    DivModUnique(p.branches, p.branches, 1, 0);
  }

  lemma CountInScope(p: Params, data: seq<Byte>)
    requires IsParams(p) && 1 <= |data| <= p.branches * ChunkSize(p)
    ensures InScope(p, data, ChunkCount(p, |data|))
  {
    CapPositive(p, 0);
    CountLeaves(p, data);
    hide ChunkSize;
    CeilDiv(|data|, ChunkSize(p), 0);
    CeilDiv(|data|, ChunkSize(p), p.branches);
  }

  lemma OrderCount(order: seq<nat>, chunks: nat)
    requires IsOrder(order, chunks)
    ensures |order| == chunks
  {
  }

  lemma OrderedLeaf(p: Params, data: seq<Byte>, chunks: nat, order: seq<nat>, k: nat)
    requires Leaves(p, data, chunks) && IsOrder(order, chunks) && k < |order|
    ensures |order| == chunks && order[k] < chunks && Start(p, order[k]) < |data|
  {
  }

  lemma DepthInScope(p: Params, chunks: nat)
    requires IsParams(p) && 1 <= chunks <= p.branches
    ensures LogCeil(p, chunks, 1, 0) == if chunks == 1 then 0 else 1
  {
    if chunks > 1 {
      assert LogCeil(p, chunks, p.branches * 1, 1) == 1;
    }
  }

  lemma EmptyTree(p: Params, h: Hash, data: seq<Byte>, chunks: nat, order: seq<nat>, levels: Levels)
    requires InScope(p, data, chunks) && IsOrder(order, chunks)
    requires levels == seq(if chunks == 1 then 1 else 2, _ => map[])
    ensures levels != [] && TreeOk(p, h, data, chunks, order, 0, levels)
  {
    hide RootKey;
  }

  lemma DoneTree(p: Params, h: Hash, data: seq<Byte>, chunks: nat, order: seq<nat>, levels: Levels)
    requires InScope(p, data, chunks) && IsOrder(order, chunks) && TreeOk(p, h, data, chunks, order, chunks, levels)
    ensures |levels| > 0 && 0 in levels[0] && |levels[0][0].children| > 0
    ensures levels[0][0].children[0] == RootKey(p, h, data)
  {
    hide RootKey, TaskAt, SizeSum;
    if chunks == 1 {
      FullNode(p, h, data, chunks, order, levels[0][0]);
      OneLevelRoot(p, h, data);
    }
  }

  // ----- where the pending count wraps to zero -----

  /** The number of results due in the last node of a level, and the slots they go to. */
  lemma LastNode(p: Params, chunks: nat, u: nat, pow: nat, index: nat)
    requires IsParams(p) && u >= 1 && pow == u * p.branches && index < chunks && index / pow == chunks / pow
    ensures var b, r := p.branches, chunks % pow;
            && 0 < r && (r - 1) / u < b
            && ((chunks + u - 1) / u) % b == (if (r - 1) / u + 1 == b then 0 else (r - 1) / u + 1)
            && 0 <= (index / u) % b <= (r - 1) / u
  {
    var b, q, r, r' := p.branches, chunks / pow, chunks % pow, index % pow;
    MulMono(1, u, b);
    DivModIdentity(chunks, pow);
    DivModIdentity(index, pow);
    assert r' < r;
    SplitDiv(q, b, u, r - 1);
    SplitDiv(q, b, u, r');
    DivMono(r', r - 1, u);
    var c := (r - 1) / u;
    assert chunks + u - 1 == (q * pow + (r - 1)) + 1 * u;
    DivPlus(q * pow + (r - 1), u);
    ModPlusOne(q, b, c);
  }

  lemma DivMono(x: nat, y: nat, m: nat)
    requires x <= y && m > 0
    ensures x / m <= y / m
  {
    DivModIdentity(x, m);
    DivModIdentity(y, m);
    if y / m < x / m {
      MulMono(y / m + 1, x / m, m);
      Distribute(y / m, 1, m);
    }
  }

  lemma DivPlus(x: nat, m: nat)
    requires m > 0
    ensures (x + 1 * m) / m == x / m + 1
  {
    DivModIdentity(x, m);
    Distribute(x / m, 1, m);
    DivModUnique(x + m, m, x / m + 1, x % m);
  }

  /** Dividing q * (u * b) + x by u, for x within one node. */
  lemma SplitDiv(q: nat, b: nat, u: nat, x: nat)
    requires u >= 1 && b >= 1 && x < u * b
    ensures (q * (u * b) + x) / u == q * b + x / u && x / u < b && (q * b + x / u) % b == x / u
  {
    QuotientBound(x, u, b);
    DivModIdentity(x, u);
    Distribute(q * b, x / u, u);
    assert q * (u * b) == (q * b) * u;
    DivModUnique(q * (u * b) + x, u, q * b + x / u, x % u);
    DivModUnique(q * b + x / u, b, q, x / u);
  }

  lemma ModPlusOne(q: nat, b: nat, c: nat)
    requires c < b
    ensures (q * b + c + 1) % b == if c + 1 == b then 0 else c + 1
  {
    if c + 1 == b {
      Distribute(q, 1, b);
      DivModUnique(q * b + c + 1, b, q + 1, 0);
    } else {
      DivModUnique(q * b + c + 1, b, q, c + 1);
    }
  }

  lemma PowParts(p: Params, u: nat, pow: nat)
    requires IsParams(p) && u >= 1 && pow == u * p.branches
    ensures IsPow(p, pow) && pow / p.branches == u
  {
    MulMono(1, u, p.branches);
    DivModUnique(pow, p.branches, u, 0);
  }

  lemma AtLeast(r: nat, u: nat, b: nat)
    requires u >= 1 && b >= 1 && 0 < r && (r - 1) / u < b
    ensures (r - 1) / u + 1 == b <==> r > u * (b - 1)
  {
    DivModIdentity(r - 1, u);
    if (r - 1) / u + 1 != b {
      MulMono((r - 1) / u, b - 2, u);
      Distribute(b - 2, 1, u);
    }
  }

  /** At every level: a node of the tree is created to wait for no result at all
      exactly when it is the last of its level and more than branches - 1 full
      results are left for it. */
  lemma PendingZeroIff(p: Params, chunks: nat, u: nat, pow: nat, index: nat)
    requires IsParams(p) && u >= 1 && pow == u * p.branches && index < chunks
    ensures IsPow(p, pow) && pow / p.branches == u
    ensures PendingFor(p, chunks, pow, index) == 0 <==>
              index / pow == chunks / pow && chunks % pow > u * (p.branches - 1)
  {
    PowParts(p, u, pow);
    if index / pow == chunks / pow {
      LastNode(p, chunks, u, pow, index);
      AtLeast(chunks % pow, u, p.branches);
    }
  }

  /** And the first result that arrives there makes the source panic, while no
      other result ever does. */
  lemma RecordPanicsIff(p: Params, chunks: nat, u: nat, pow: nat, index: nat, level: map<nat, Node>, hash: Key, size: nat)
    requires IsParams(p) && u >= 1 && pow == u * p.branches && index < chunks
    requires IsPow(p, pow) && index / pow in level ==> |level[index / pow].children| == PendingFor(p, chunks, pow, index)
    ensures IsPow(p, pow)
    ensures Record(p, chunks, level, pow, index, hash, size).None? <==>
              index / pow == chunks / pow && chunks % pow > u * (p.branches - 1)
  {
    PendingZeroIff(p, chunks, u, pow, index);
    SlotInRange(p, chunks, u, pow, index);
    hide PendingFor;
  }

  lemma SlotInRange(p: Params, chunks: nat, u: nat, pow: nat, index: nat)
    requires IsParams(p) && u >= 1 && pow == u * p.branches && index < chunks
    requires IsPow(p, pow) && pow / p.branches == u
    ensures 0 <= (index / u) % p.branches
    ensures PendingFor(p, chunks, pow, index) > 0 ==> (index / u) % p.branches < PendingFor(p, chunks, pow, index)
  {
    if index / pow == chunks / pow {
      LastNode(p, chunks, u, pow, index);
    }
  }

  // ----- the whole split panics on the second level -----

  /** Leaves of the first leaf node among the first k tasks. */
  ghost function Seen(order: seq<nat>, k: nat, b: nat): set<nat>
    requires k <= |order|
  {
    set j | 0 <= j < k && order[j] < b :: order[j]
  }

  /** No leaf node is complete yet. */
  ghost predicate Stalled(p: Params, chunks: nat, order: seq<nat>, k: nat, levels: Levels) {
    && k <= |order| && |levels| == 3 && levels[1] == map[]
    && |Seen(order, k, p.branches)| < p.branches
    && (if 0 in levels[2] then levels[2][0].pending == p.branches - |Seen(order, k, p.branches)|
        else Seen(order, k, p.branches) == {})
  }

  lemma StalledStart(p: Params, chunks: nat, order: seq<nat>, levels: Levels)
    requires IsParams(p) && p.branches * (p.branches - 1) < chunks < p.branches * p.branches
    requires levels == seq(LogCeil(p, chunks, 1, 0) + 1, _ => map[])
    ensures Stalled(p, chunks, order, 0, levels)
  {
    var b := p.branches;
    MulMono(1, b - 1, b);
    assert LogCeil(p, chunks, 1, 0) == LogCeil(p, chunks, b * 1, 1) == LogCeil(p, chunks, b * (b * 1), 2) == 2;
    assert Seen(order, 0, b) == {};
  }

  lemma SeenNext(order: seq<nat>, k: nat, b: nat, chunks: nat)
    requires k < |order| && IsOrder(order, chunks)
    ensures Seen(order, k + 1, b) == Seen(order, k, b) + if order[k] < b then {order[k]} else {}
    ensures |Seen(order, k + 1, b)| == |Seen(order, k, b)| + if order[k] < b then 1 else 0
  {
    assert order[k] !in Seen(order, k, b);
    assert Seen(order, k + 1, b) == Seen(order, k, b) + if order[k] < b then {order[k]} else {};
  }

  lemma SecondLevel(p: Params, chunks: nat, c: nat)
    requires IsParams(p) && p.branches * (p.branches - 1) < chunks < p.branches * p.branches && c < chunks
    ensures IsPow(p, p.branches) && IsPow(p, p.branches * p.branches) && p.branches / p.branches == 1
    ensures c / (p.branches * p.branches) == 0
    ensures PendingFor(p, chunks, p.branches * p.branches, c) == 0
    ensures c < p.branches ==> c / p.branches == 0 && PendingFor(p, chunks, p.branches, c) == p.branches
    ensures c >= p.branches ==> c / p.branches != 0
  {
    var b := p.branches;
    var pow := b * b;
    PowParts(p, 1, b);
    PendingZeroIff(p, chunks, b, pow, c);
    DivModUnique(c, pow, 0, c);
    DivModUnique(chunks, pow, 0, chunks);
    DivModIdentity(c, b);
    if c < b {
      DivModUnique(c, b, 0, c);
      MulMono(1, b - 1, b);
      DivMono(b, chunks, b);
    }
  }

  /** A task that completes a leaf node panics one level up; any other leaves the
      upper levels alone. */
  lemma StalledStep(p: Params, h: Hash, chunks: nat, order: seq<nat>, k: nat, levels: Levels, chunk: seq<Byte>, size: nat)
    requires IsParams(p) && p.branches * (p.branches - 1) < chunks < p.branches * p.branches
    requires IsOrder(order, chunks) && k < |order| && Stalled(p, chunks, order, k, levels) && IsPow(p, p.branches)
    ensures var l2 := Processed(p, h, chunks, levels, |levels| - 1, p.branches, order[k], chunk, size);
            l2.Some? ==> Stalled(p, chunks, order, k + 1, l2.value)
  {
    var b, c := p.branches, order[k];
    SecondLevel(p, chunks, c);
    SeenNext(order, k, b, chunks);
    hide PendingFor, IsOrder, Seen, NodeChunk;
    var recorded := Record(p, chunks, levels[2], b, c, h(chunk), size);
    if recorded.Some? && recorded.value.pending <= 0 {
      var l2 := Stored(p, levels, 2, b, c, recorded.value);
      assert l2[1] == map[];
      assert Record(p, chunks, l2[1], b * b, c, h(NodeChunk(recorded.value)), recorded.value.size) == None;
    }
  }

  ghost function Under(b: nat): (s: set<nat>)
    ensures |s| == b && forall c: nat :: c in s <==> c < b
  {
    if b == 0 then {} else Under(b - 1) + {b - 1}
  }

  /** All leaves cannot be done without completing the first leaf node. */
  lemma StalledEnd(p: Params, chunks: nat, order: seq<nat>, levels: Levels)
    requires IsParams(p) && p.branches * (p.branches - 1) < chunks && IsOrder(order, chunks)
    ensures !Stalled(p, chunks, order, |order|, levels)
  {
    var b := p.branches;
    MulMono(1, b - 1, b);
    forall c: nat
      ensures c in Seen(order, |order|, b) <==> c < b
    {
      if c < b {
        assert c in order;
        var j :| 0 <= j < |order| && order[j] == c;
      }
    }
    assert Seen(order, |order|, b) == Under(b);
  }
}
