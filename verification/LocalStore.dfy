/** The write-behind rule of LocalStore: Put places a chunk in the memory cache
    and writes it to disk in the background; the cache must not drop it before
    the write is done. Calls run concurrently, so the store is a state machine
    whose steps interleave freely. */
module LocalStore {
  import opened Bytes

  type Bits = seq<Byte>

  /** The dbStored channel of a chunk: absent, still open, or closed by the write. */
  datatype Flag = Absent | Open | Closed

  /** A chunk object; data is None in a pending request. */
  datatype Chunk = Chunk(key: Key, data: Option<Bits>, stored: Flag)

  /** A Get that has read the disk and not yet put the chunk into the cache. */
  datatype Fetched = Fetched(key: Key, data: Bits)

  datatype State = State(
    objs: map<nat, Chunk>,
    cached: map<Key, nat>,
    /** Put has filled the cache and not yet started the background write. */
    starting: set<nat>,
    /** Background writes that have not happened yet. */
    writes: set<nat>,
    db: map<Key, Bits>,
    fetched: map<nat, Fetched>,
    /** Keys that were put and whose disk record was not collected since. */
    owed: set<Key>)

  datatype Action =
    | PutMem(o: nat, k: Key, d: Bits)  // LocalStore.Put up to the cache insert
    | Spawn(o: nat)                    // start of the background write; Put returns
    | Write(o: nat)                    // DbStore.Put in the background
    | Evict(k: Key)                    // removeOldest on this entry
    | Collect(k: Key)                  // garbage collection of the disk record
    | Fetch(t: nat, k: Key)            // LocalStore.Get: cache miss, disk hit
    | Fill(t: nat, o: nat)             // the rest of that Get: cache insert
    | Request(o: nat, k: Key)          // a pending request enters the cache

  const INIT := State(map[], map[], {}, {}, map[], map[], {})

  /** Evict waits for an open flag: it is enabled only without one. */
  predicate Enabled(hash: Bits -> Key, s: State, a: Action) {
    match a
    case PutMem(o, k, d) => o !in s.objs && hash(d) == k
    case Spawn(o) => o in s.starting
    case Write(o) => o in s.writes && o in s.objs && s.objs[o].data.Some?
    case Evict(k) => k in s.cached && s.cached[k] in s.objs && s.objs[s.cached[k]].stored != Open
    case Collect(k) => k in s.db
    case Fetch(t, k) => t !in s.fetched && k in s.db
    case Fill(t, o) => t in s.fetched && o !in s.objs
    case Request(o, k) => o !in s.objs
  }

  /** MemStore.Put: an object without data takes over the data of the entry it
      replaces. */
  function CachePut(s: State, o: nat, c: Chunk): State {
    var had := if c.key in s.cached && s.cached[c.key] in s.objs then s.objs[s.cached[c.key]].data else None;
    var c' := if c.data.None? then c.(data := had) else c;
    s.(objs := s.objs[o := c'], cached := s.cached[c.key := o])
  }

  function Apply(hash: Bits -> Key, s: State, a: Action): State
    requires Enabled(hash, s, a)
  {
    match a
    case PutMem(o, k, d) =>
      CachePut(s, o, Chunk(k, Some(d), Open)).(starting := s.starting + {o}, owed := s.owed + {k})
    case Spawn(o) => s.(starting := s.starting - {o}, writes := s.writes + {o})
    case Write(o) =>
      var c := s.objs[o];
      s.(objs := s.objs[o := c.(stored := Closed)], writes := s.writes - {o},
         db := if c.key in s.db then s.db else s.db[c.key := c.data.value])
    case Evict(k) => if s.objs[s.cached[k]].data.Some? then s.(cached := s.cached - {k}) else s
    case Collect(k) => s.(db := s.db - {k}, owed := s.owed - {k})
    case Fetch(t, k) => s.(fetched := s.fetched[t := Fetched(k, s.db[k])])
    case Fill(t, o) =>
      var f := s.fetched[t];
      CachePut(s, o, Chunk(f.key, Some(f.data), Absent)).(fetched := s.fetched - {t})
    case Request(o, k) => CachePut(s, o, Chunk(k, None, Absent))
  }

  /** LocalStore.Get: the cache answers first, even with a request that has no data. */
  function Read(s: State, k: Key): Option<Bits> {
    if k in s.cached && s.cached[k] in s.objs then s.objs[s.cached[k]].data
    else if k in s.db then Some(s.db[k]) else None
  }

  // ----- the invariant -----

  ghost predicate ObjsOk(hash: Bits -> Key, objs: map<nat, Chunk>, unwritten: set<nat>) {
    && (forall o :: o in unwritten ==> o in objs)
    && (forall o :: o in objs ==> (objs[o].stored == Open <==> o in unwritten))
    && (forall o :: o in objs && objs[o].data.Some? ==> hash(objs[o].data.value) == objs[o].key)
    && (forall o :: o in unwritten && o in objs ==> objs[o].data.Some?)
  }

  ghost predicate CacheOk(cached: map<Key, nat>, objs: map<nat, Chunk>) {
    forall k :: k in cached ==> cached[k] in objs && objs[cached[k]].key == k
  }

  ghost predicate DiskOk(hash: Bits -> Key, db: map<Key, Bits>, fetched: map<nat, Fetched>) {
    && (forall k :: k in db ==> hash(db[k]) == k)
    && (forall t :: t in fetched ==> hash(fetched[t].data) == fetched[t].key)
  }

  /** The cache holds an unwritten copy of the chunk, or the disk has it and the
      cache does not hide it behind an empty request. */
  predicate Held(s: State, k: Key) {
    var hit := k in s.cached && s.cached[k] in s.objs;
    || (hit && s.objs[s.cached[k]].stored == Open)
    || (k in s.db && (hit ==> s.objs[s.cached[k]].data.Some?))
  }

  ghost predicate AllHeld(s: State) {
    forall k :: k in s.owed ==> Held(s, k)
  }

  ghost predicate Inv(hash: Bits -> Key, s: State) {
    && s.starting !! s.writes
    && ObjsOk(hash, s.objs, s.starting + s.writes)
    && CacheOk(s.cached, s.objs)
    && DiskOk(hash, s.db, s.fetched)
    && AllHeld(s)
  }

  /** What may go wrong between the two halves of a Get, and between a miss and
      the request that follows it: the chunk was put in the meantime, and is not
      on disk, or for a request no longer in the cache. */
  predicate Careful(s: State, a: Action) {
    match a
    case Fill(t, _) => t in s.fetched && s.fetched[t].key in s.owed ==> s.fetched[t].key in s.db
    case Request(_, k) => k in s.owed ==> k in s.db && k in s.cached
    case _ => true
  }

  // ----- every step -----

  lemma CachePutObjs(hash: Bits -> Key, s: State, o: nat, c: Chunk, unwritten: set<nat>)
    requires ObjsOk(hash, s.objs, unwritten) && CacheOk(s.cached, s.objs) && o !in s.objs
    requires c.data.Some? ==> hash(c.data.value) == c.key
    requires c.stored == Open ==> c.data.Some?
    ensures ObjsOk(hash, CachePut(s, o, c).objs, if c.stored == Open then unwritten + {o} else unwritten)
    ensures CacheOk(CachePut(s, o, c).cached, CachePut(s, o, c).objs)
  {
  }

  /** Inserting an entry that is still open, or has data that the disk holds too. */
  lemma CachePutHeld(s: State, o: nat, c: Chunk, k: Key)
    requires CacheOk(s.cached, s.objs) && o !in s.objs
    requires k == c.key ==> c.stored == Open || (c.data.Some? && k in s.db)
    requires k != c.key ==> Held(s, k)
    ensures Held(CachePut(s, o, c), k)
  {
  }

  /** Each step keeps the invariant as long as it is careful. */
  lemma StepInv(hash: Bits -> Key, s: State, a: Action)
    requires Inv(hash, s) && Enabled(hash, s, a) && Careful(s, a)
    ensures Inv(hash, Apply(hash, s, a))
  {
    hide ObjsOk, CacheOk, DiskOk, Held, CachePut;
    match a
    case PutMem(o, k, d) => PutMemInv(hash, s, o, k, d);
    case Spawn(o) => SpawnInv(hash, s, o);
    case Write(o) => WriteInv(hash, s, o);
    case Evict(k) => EvictInv(hash, s, k);
    case Collect(k) => CollectInv(hash, s, k);
    case Fetch(t, k) => FetchInv(hash, s, t, k);
    case Fill(t, o) => FillInv(hash, s, t, o);
    case Request(o, k) => RequestInv(hash, s, o, k);
  }

  lemma PutMemInv(hash: Bits -> Key, s: State, o: nat, k: Key, d: Bits)
    requires Inv(hash, s) && Enabled(hash, s, PutMem(o, k, d))
    ensures Inv(hash, Apply(hash, s, PutMem(o, k, d)))
  {
    var s' := Apply(hash, s, PutMem(o, k, d));
    var c := Chunk(k, Some(d), Open);
    assert o !in s.starting + s.writes by { ObjsKnown(hash, s.objs, s.starting + s.writes, o); }
    CachePutObjs(hash, s, o, c, s.starting + s.writes);
    assert s'.starting + s'.writes == s.starting + s.writes + {o};
    forall l | l in s'.owed
      ensures Held(s', l)
    {
      CachePutHeld(s, o, c, l);
    }
  }

  lemma ObjsKnown(hash: Bits -> Key, objs: map<nat, Chunk>, unwritten: set<nat>, o: nat)
    requires ObjsOk(hash, objs, unwritten)
    ensures o in unwritten ==> o in objs
  {
  }

  lemma SpawnInv(hash: Bits -> Key, s: State, o: nat)
    requires Inv(hash, s) && o in s.starting
    ensures Inv(hash, Apply(hash, s, Spawn(o)))
  {
    var s' := Apply(hash, s, Spawn(o));
    assert s'.starting + s'.writes == s.starting + s.writes;
    assert forall k :: Held(s, k) ==> Held(s', k);
  }

  lemma WriteInv(hash: Bits -> Key, s: State, o: nat)
    requires Inv(hash, s) && Enabled(hash, s, Write(o))
    ensures Inv(hash, Apply(hash, s, Write(o)))
  {
    var s' := Apply(hash, s, Write(o));
    assert s'.starting + s'.writes == s.starting + s.writes - {o};
    forall k | k in s'.owed
      ensures Held(s', k)
    {
      assert Held(s, k);
    }
  }

  lemma EvictInv(hash: Bits -> Key, s: State, k: Key)
    requires Inv(hash, s) && Enabled(hash, s, Evict(k))
    ensures Inv(hash, Apply(hash, s, Evict(k)))
  {
    var s' := Apply(hash, s, Evict(k));
    forall l | l in s'.owed
      ensures Held(s', l)
    {
      assert Held(s, l);
    }
  }

  lemma CollectInv(hash: Bits -> Key, s: State, k: Key)
    requires Inv(hash, s) && k in s.db
    ensures Inv(hash, Apply(hash, s, Collect(k)))
  {
    var s' := Apply(hash, s, Collect(k));
    forall l | l in s'.owed
      ensures Held(s', l)
    {
      assert Held(s, l);
    }
  }

  lemma FetchInv(hash: Bits -> Key, s: State, t: nat, k: Key)
    requires Inv(hash, s) && Enabled(hash, s, Fetch(t, k))
    ensures Inv(hash, Apply(hash, s, Fetch(t, k)))
  {
    var s' := Apply(hash, s, Fetch(t, k));
    assert forall l :: Held(s, l) ==> Held(s', l);
  }

  lemma FillInv(hash: Bits -> Key, s: State, t: nat, o: nat)
    requires Inv(hash, s) && Enabled(hash, s, Fill(t, o)) && Careful(s, Fill(t, o))
    ensures Inv(hash, Apply(hash, s, Fill(t, o)))
  {
    var s' := Apply(hash, s, Fill(t, o));
    var f := s.fetched[t];
    var c := Chunk(f.key, Some(f.data), Absent);
    CachePutObjs(hash, s, o, c, s.starting + s.writes);
    forall l | l in s'.owed
      ensures Held(s', l)
    {
      CachePutHeld(s, o, c, l);
    }
  }

  lemma RequestInv(hash: Bits -> Key, s: State, o: nat, k: Key)
    requires Inv(hash, s) && Enabled(hash, s, Request(o, k)) && Careful(s, Request(o, k))
    ensures Inv(hash, Apply(hash, s, Request(o, k)))
  {
    var s' := Apply(hash, s, Request(o, k));
    var c := Chunk(k, None, Absent);
    CachePutObjs(hash, s, o, c, s.starting + s.writes);
    forall l | l in s'.owed
      ensures Held(s', l)
    {
      assert Held(s, l);
      if l != k {
        CachePutHeld(s, o, c, l);
      }
    }
  }

  // ----- whole runs -----

  ghost predicate Run(hash: Bits -> Key, s: State, acts: seq<Action>, s': State)
    decreases |acts|
  {
    if acts == [] then s' == s
    else Enabled(hash, s, acts[0]) && Careful(s, acts[0]) && Run(hash, Apply(hash, s, acts[0]), acts[1..], s')
  }

  lemma {:induction false} RunInv(hash: Bits -> Key, s: State, acts: seq<Action>, s': State)
    requires Inv(hash, s) && Run(hash, s, acts, s')
    ensures Inv(hash, s')
    decreases |acts|
  {
    hide Inv, Enabled, Apply, Careful;
    if acts != [] {
      StepInv(hash, s, acts[0]);
      RunInv(hash, Apply(hash, s, acts[0]), acts[1..], s');
    }
  }

  /** Nothing but a collection of its record releases a chunk that was put. */
  lemma {:induction false} OwedUntilCollected(hash: Bits -> Key, s: State, acts: seq<Action>, s': State, k: Key)
    requires Run(hash, s, acts, s') && k in s.owed && Collect(k) !in acts
    ensures k in s'.owed
    decreases |acts|
  {
    if acts != [] {
      assert acts[0] in acts && forall a :: a in acts[1..] ==> a in acts;
      OwedUntilCollected(hash, Apply(hash, s, acts[0]), acts[1..], s', k);
    }
  }

  /** Once a Put has filled the cache the chunk can be read, with data that hashes
      to its key, in every run in which its disk record is not collected. */
  lemma PutStaysReadable(hash: Bits -> Key, before: seq<Action>, s: State, o: nat, k: Key, d: Bits, after: seq<Action>, s': State)
    requires Run(hash, INIT, before, s) && Enabled(hash, s, PutMem(o, k, d))
    requires Run(hash, Apply(hash, s, PutMem(o, k, d)), after, s') && Collect(k) !in after
    ensures Read(s', k).Some? && hash(Read(s', k).value) == k
  {
    hide Run;
    InitInv(hash);
    RunInv(hash, INIT, before, s);
    StepInv(hash, s, PutMem(o, k, d));
    RunInv(hash, Apply(hash, s, PutMem(o, k, d)), after, s');
    OwedUntilCollected(hash, Apply(hash, s, PutMem(o, k, d)), after, s', k);
    OwedReadable(hash, s', k);
  }

  lemma OwedReadable(hash: Bits -> Key, s: State, k: Key)
    requires Inv(hash, s) && k in s.owed
    ensures Read(s, k).Some? && hash(Read(s, k).value) == k
  {
    assert Held(s, k);
  }

  lemma InitInv(hash: Bits -> Key)
    ensures Inv(hash, INIT)
  {
  }

  /** With no other data under its key it is the very data that was put. */
  lemma PutReadsBack(hash: Bits -> Key, before: seq<Action>, s: State, o: nat, k: Key, d: Bits, after: seq<Action>, s': State)
    requires Run(hash, INIT, before, s) && Enabled(hash, s, PutMem(o, k, d))
    requires Run(hash, Apply(hash, s, PutMem(o, k, d)), after, s') && Collect(k) !in after
    requires forall e :: hash(e) == k ==> e == d
    ensures Read(s', k) == Some(d)
  {
    hide Run;
    PutStaysReadable(hash, before, s, o, k, d, after, s');
  }

  /** Any interleaving at all, careful or not. */
  ghost predicate AnyRun(hash: Bits -> Key, s: State, acts: seq<Action>, s': State)
    decreases |acts|
  {
    if acts == [] then s' == s
    else Enabled(hash, s, acts[0]) && AnyRun(hash, Apply(hash, s, acts[0]), acts[1..], s')
  }

  /** The object is still to be written, or its key is on disk. */
  predicate Kept(s: State, o: nat, k: Key) {
    || k in s.db
    || (o in s.starting + s.writes && o in s.objs && s.objs[o].key == k && s.objs[o].data.Some?)
  }

  lemma StepKeeps(hash: Bits -> Key, s: State, a: Action, o: nat, k: Key)
    requires Enabled(hash, s, a) && Kept(s, o, k) && a != Collect(k)
    ensures Kept(Apply(hash, s, a), o, k)
  {
  }

  lemma {:induction false} RunKeeps(hash: Bits -> Key, s: State, acts: seq<Action>, s': State, o: nat, k: Key)
    requires AnyRun(hash, s, acts, s') && Kept(s, o, k) && Collect(k) !in acts
    ensures Kept(s', o, k)
    decreases |acts|
  {
    hide Enabled, Apply, Kept;
    if acts != [] {
      assert acts[0] in acts && forall a :: a in acts[1..] ==> a in acts;
      StepKeeps(hash, s, acts[0], o, k);
      RunKeeps(hash, Apply(hash, s, acts[0]), acts[1..], s', o, k);
    }
  }

  /** Careless steps can hide a chunk but never destroy it: in every interleaving
      a put chunk is on disk, or its background write can still bring it there,
      until its record is collected. */
  lemma PutNeverLost(hash: Bits -> Key, s: State, o: nat, k: Key, d: Bits, after: seq<Action>, s': State)
    requires Enabled(hash, s, PutMem(o, k, d)) && AnyRun(hash, Apply(hash, s, PutMem(o, k, d)), after, s')
    requires Collect(k) !in after
    ensures || k in s'.db
            || (Enabled(hash, s', Write(o)) && k in Apply(hash, s', Write(o)).db)
            || (Enabled(hash, s', Spawn(o)) && Enabled(hash, Apply(hash, s', Spawn(o)), Write(o))
                && k in Apply(hash, Apply(hash, s', Spawn(o)), Write(o)).db)
  {
    hide AnyRun;
    RunKeeps(hash, Apply(hash, s, PutMem(o, k, d)), after, s', o, k);
  }

  /** An eviction takes exactly the entry it is for, and only if that has data: a
      pending request stays. */
  lemma EvictExact(hash: Bits -> Key, s: State, k: Key)
    requires Enabled(hash, s, Evict(k))
    ensures var s' := Apply(hash, s, Evict(k));
            && (k in s'.cached <==> s.objs[s.cached[k]].data.None?)
            && (forall j :: j in s.cached && j != k ==> j in s'.cached && s'.cached[j] == s.cached[j])
            && s'.objs == s.objs && s'.db == s.db && s'.writes == s.writes && s'.starting == s.starting
  {
  }

  /** The second half of a Get caches the data it read under a new object without a
      flag, and ends the Get. */
  lemma FillExact(hash: Bits -> Key, s: State, t: nat, o: nat)
    requires Enabled(hash, s, Fill(t, o))
    ensures var s', f := Apply(hash, s, Fill(t, o)), s.fetched[t];
            && s'.cached == s.cached[f.key := o] && s'.objs == s.objs[o := Chunk(f.key, Some(f.data), Absent)]
            && t !in s'.fetched && (forall u :: u in s.fetched && u != t ==> u in s'.fetched && s'.fetched[u] == s.fetched[u])
            && s'.db == s.db && s'.writes == s.writes && s'.starting == s.starting
  {
  }

  /** An eviction that has to wait waits for a write that is on its way. */
  lemma WaitEnds(hash: Bits -> Key, acts: seq<Action>, s: State, k: Key)
    requires Run(hash, INIT, acts, s) && k in s.cached && !Enabled(hash, s, Evict(k))
    ensures var o := s.cached[k];
            || Enabled(hash, s, Write(o))
            || (Enabled(hash, s, Spawn(o)) && Enabled(hash, Apply(hash, s, Spawn(o)), Write(o)))
  {
    InitInv(hash);
    RunInv(hash, INIT, acts, s);
    var o := s.cached[k];
    assert o in s.starting + s.writes;
  }

  /** A background write adds the chunk if its key is new on disk, and touches no
      other record and no record that is there. */
  lemma WriteExact(hash: Bits -> Key, s: State, o: nat, j: Key)
    requires Enabled(hash, s, Write(o))
    ensures var s', c := Apply(hash, s, Write(o)), s.objs[o];
            && (j in s'.db <==> j in s.db || j == c.key)
            && (j in s.db ==> s'.db[j] == s.db[j])
            && (j == c.key && j !in s.db ==> s'.db[j] == c.data.value)
            && s'.cached == s.cached && s'.objs.Keys == s.objs.Keys && s'.objs[o] == c.(stored := Closed)
  {
  }

  /** And once it has happened the eviction goes through. */
  lemma WriteReleases(hash: Bits -> Key, s: State, k: Key)
    requires Inv(hash, s) && k in s.cached && Enabled(hash, s, Write(s.cached[k]))
    ensures var s' := Apply(hash, s, Write(s.cached[k])); k in s'.cached && Enabled(hash, s', Evict(k)) && k in s'.db
  {
  }

  // ----- the condition is exact -----

  /** A cache fill that is not careful makes a chunk that was put unreadable: the
      entry that replaces the unwritten one can be evicted at once. */
  lemma FillLosesChunk(hash: Bits -> Key, s: State, t: nat, o: nat)
    requires Inv(hash, s) && Enabled(hash, s, Fill(t, o)) && !Careful(s, Fill(t, o))
    ensures var k, s1 := s.fetched[t].key, Apply(hash, s, Fill(t, o));
            && Read(s, k).Some? && k in s1.owed && Enabled(hash, s1, Evict(k))
            && var s2 := Apply(hash, s1, Evict(k));
               k in s2.owed && Read(s2, k) == None
  {
    var k := s.fetched[t].key;
    assert Held(s, k);
  }

  /** A pending request that is not careful does the same, at once when it covers
      the disk record with an empty entry, and otherwise after one eviction. */
  lemma RequestLosesChunk(hash: Bits -> Key, s: State, o: nat, k: Key)
    requires Inv(hash, s) && Enabled(hash, s, Request(o, k)) && !Careful(s, Request(o, k))
    ensures var s1 := Apply(hash, s, Request(o, k));
            && Read(s, k).Some? && k in s1.owed
            && (Read(s1, k) == None <==> k !in s.cached)
            && (k in s.cached ==>
                  Enabled(hash, s1, Evict(k))
                  && var s2 := Apply(hash, s1, Evict(k)); k in s2.owed && Read(s2, k) == None)
  {
    assert Held(s, k);
  }

  /** One Put is enough to get there: the request of a reader that missed the
      chunk just before. */
  lemma LateRequestReachable(hash: Bits -> Key, d: Bits) returns (acts: seq<Action>, s: State)
    ensures Run(hash, INIT, acts, s) && Enabled(hash, s, Request(1, hash(d))) && !Careful(s, Request(1, hash(d)))
  {
    hide Run;
    var put := PutMem(0, hash(d), d);
    s := Apply(hash, INIT, put);
    RunNone(hash, s);
    RunOne(hash, INIT, put, [], s);
    acts := [put] + [];
  }

  /** A step keeps the invariant exactly when it is careful. */
  lemma CarefulIff(hash: Bits -> Key, s: State, a: Action)
    requires Inv(hash, s) && Enabled(hash, s, a)
    ensures Inv(hash, Apply(hash, s, a)) <==> Careful(s, a)
  {
    if Careful(s, a) {
      StepInv(hash, s, a);
    } else {
      CarelessBreaks(hash, s, a);
    }
  }

  lemma CarelessBreaks(hash: Bits -> Key, s: State, a: Action)
    requires Inv(hash, s) && Enabled(hash, s, a) && !Careful(s, a)
    ensures !AllHeld(Apply(hash, s, a))
  {
    var k := if a.Fill? then s.fetched[a.t].key else a.k;
    assert Held(s, k);
    assert !Held(Apply(hash, s, a), k);
  }

  /** One chunk, put and written. */
  function Written(k: Key, d: Bits): State {
    State(map[0 := Chunk(k, Some(d), Closed)], map[k := 0], {}, {}, map[k := d], map[], {k})
  }

  lemma WrittenReached(hash: Bits -> Key, d: Bits, rest: seq<Action>, s: State) returns (acts: seq<Action>)
    requires Run(hash, Written(hash(d), d), rest, s)
    ensures Run(hash, INIT, acts, s)
  {
    hide Run;
    var k := hash(d);
    var s1 := Apply(hash, INIT, PutMem(0, k, d));
    var s2 := Apply(hash, s1, Spawn(0));
    assert Apply(hash, s2, Write(0)) == Written(k, d);
    RunOne(hash, s2, Write(0), rest, s);
    acts := [Write(0)] + rest;
    RunOne(hash, s1, Spawn(0), acts, s);
    acts := [Spawn(0)] + acts;
    RunOne(hash, INIT, PutMem(0, k, d), acts, s);
    acts := [PutMem(0, k, d)] + acts;
  }

  /** Such a state can be reached: read, collect, put again, and only then the
      second half of the first Get. */
  lemma StaleFillReachable(hash: Bits -> Key, d: Bits) returns (acts: seq<Action>, s: State)
    ensures Run(hash, INIT, acts, s) && Enabled(hash, s, Fill(0, 2)) && !Careful(s, Fill(0, 2))
  {
    hide Run;
    var k := hash(d);
    var s3 := Written(k, d);
    var s4 := Apply(hash, s3, Fetch(0, k));
    var s5 := Apply(hash, s4, Collect(k));
    s := Apply(hash, s5, PutMem(1, k, d));
    RunNone(hash, s);
    RunOne(hash, s5, PutMem(1, k, d), [], s);
    acts := [PutMem(1, k, d)] + [];
    RunOne(hash, s4, Collect(k), acts, s);
    acts := [Collect(k)] + acts;
    RunOne(hash, s3, Fetch(0, k), acts, s);
    acts := WrittenReached(hash, d, [Fetch(0, k)] + acts, s);
  }

  lemma RunNone(hash: Bits -> Key, s: State)
    ensures Run(hash, s, [], s)
  {
  }

  lemma RunOne(hash: Bits -> Key, s: State, a: Action, acts: seq<Action>, s': State)
    requires Enabled(hash, s, a) && Careful(s, a) && Run(hash, Apply(hash, s, a), acts, s')
    ensures Run(hash, s, [a] + acts, s')
  {
    assert ([a] + acts)[1..] == acts;
  }
}
