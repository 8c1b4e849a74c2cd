/** When the replay of the request database runs past the last record: exactly
    which queues can get there, and what that means for a restart. */
module SyncQueueStray {
  import opened Bytes
  import opened SyncQueue
  import opened SyncQueueSteps
  import opened SyncQueueRuns

  // ----- only queues that can flush a batch before they save a counter -----

  /** A full batch fits into the buffer. */
  predicate Small(s: State) {
    1 <= s.batchSize <= s.cap
  }

  /** The replay has not begun, or has not come to the end of its records. */
  predicate Early(s: State) {
    !s.replayed || (!s.disk.dr.Off? && !InUse(s.disk.dr))
  }

  /** Until the replay is over only a stopping bufferRead writes records, and only
      those that were in the buffer when it began to stop. */
  predicate EarlyOk(s: State) {
    Early(s) ==>
      && (s.mode == Idle || s.brQuit) && !s.br.Delivering?
      && s.inBatch + |s.buf| <= s.cap
      && (s.saved.None? && s.disk.db != [] ==> Small(s))
  }

  predicate EndOk(s: State) {
    var dr := s.disk.dr;
    && (dr.Opening? && dr.use ==> s.saved.Some?)
    && ((dr.Reading? || dr.Sending?) && !dr.end ==> Small(s))
    && (dr.Straying? ==> Small(s))
    && (s.past.strays != [] ==> Small(s))
  }

  /** With a counter key from the start every iterator meets it. */
  predicate EndSeen(s: State) {
    var dr := s.disk.dr;
    && s.saved.Some? && s.past.strays == [] && !dr.Straying?
    && (dr.Reading? || dr.Sending? ==> dr.end)
  }

  lemma FullBatch(n: nat, batchSize: nat)
    requires n > 0 && Full(n, batchSize)
    ensures 1 <= batchSize <= n
  {
    if n < batchSize {
      DivModUnique(n, batchSize, 0, n);
    }
  }

  lemma SaveEarly(s: State, req: Request)
    requires Control(s) && s.mode == ToDb && EndOk(s)
    requires Early(s) ==> s.brQuit && s.inBatch + 1 + |s.buf| <= s.cap && (s.saved.None? && s.disk.db != [] ==> Small(s))
    ensures EarlyOk(Save(s, req)) && EndOk(Save(s, req))
  {
    hide WriteBatch, Full;
    if Full(s.inBatch + 1, s.batchSize) {
      FullBatch(s.inBatch + 1, s.batchSize);
    }
  }

  lemma BufferStepEnds(s: State, a: Action)
    requires Control(s) && EarlyOk(s) && EndOk(s) && Enabled(s, a) && (a.BufferDelivered? || a.BufferSave?)
    ensures EarlyOk(Next(s, a)) && EndOk(Next(s, a))
  {
    hide Save, Backlog;
    match a
    case BufferSave => SaveEarly(s.(buf := s.buf[1..]), s.buf[0]);
    case BufferDelivered(ok) =>
      if !ok {
        FailedControl(s);
        SaveEarly(s.(mode := ToDb, closed := true, brQuit := true, br := Select, past := s.past.(failed := true)), s.br.req);
        SaveIgnoresLoop(s.(mode := ToDb, closed := true, brQuit := true, past := s.past.(failed := true)), s.br.req);
      }
  }

  lemma FailedControl(s: State)
    requires Control(s) && s.br.Delivering? && s.quit
    ensures Control(s.(mode := ToDb, closed := true, brQuit := true, br := Select, past := s.past.(failed := true)))
  {
  }

  lemma {:induction false} WithoutSome(db: seq<Entry>, del: seq<nat>)
    ensures Without(db, del) != [] ==> db != []
  {
  }

  lemma FromSome(db: seq<Entry>, pos: nat)
    ensures From(db, pos) != [] ==> db != []
  {
  }

  lemma DbStepEnds(s: State, a: Action)
    requires Control(s) && EarlyOk(s) && EndOk(s) && Enabled(s, a)
    requires a.DbOpen? || a.DbAdvance? || a.DbStray? || a.DbDelete?
    ensures EarlyOk(Next(s, a)) && EndOk(Next(s, a))
  {
    hide From, Without;
    if a.DbOpen? {
      FromSome(s.disk.db, s.disk.dr.pos);
    } else if a.DbDelete? {
      WithoutSome(s.disk.db, s.disk.dr.del);
    }
  }

  lemma DeliveredEnds(s: State, ok: bool)
    requires Control(s) && EarlyOk(s) && EndOk(s) && Enabled(s, DbDelivered(ok))
    ensures EarlyOk(Next(s, DbDelivered(ok))) && EndOk(Next(s, DbDelivered(ok)))
  {
    hide Overtakes;
  }

  lemma HandoverEnds(s: State)
    requires Control(s) && EarlyOk(s) && EndOk(s) && Enabled(s, Handover)
    ensures EarlyOk(Next(s, Handover)) && EndOk(Next(s, Handover))
  {
    hide WriteBatch;
  }

  lemma StepEnds(s: State, a: Action)
    requires Control(s) && EarlyOk(s) && EndOk(s) && Enabled(s, a)
    ensures EarlyOk(Next(s, a)) && EndOk(Next(s, a))
  {
    if a.BufferDelivered? || a.BufferSave? {
      BufferStepEnds(s, a);
    } else if a.DbOpen? || a.DbAdvance? || a.DbStray? || a.DbDelete? {
      DbStepEnds(s, a);
    } else if a.DbDelivered? {
      DeliveredEnds(s, a.ok);
    } else if a.Handover? {
      HandoverEnds(s);
    } else {
      hide Flush;
    }
  }

  lemma StepSeen(s: State, a: Action)
    requires EndSeen(s) && Enabled(s, a)
    ensures EndSeen(Next(s, a))
  {
    if a.BufferDelivered? || a.BufferSave? {
      SeenBuffer(s, a);
    } else if a.DbOpen? || a.DbAdvance? || a.DbStray? || a.DbDelete? || a.DbDelivered? {
      SeenDb(s, a);
    } else {
      hide Flush;
    }
  }

  lemma SeenDb(s: State, a: Action)
    requires EndSeen(s) && Enabled(s, a)
    requires a.DbOpen? || a.DbAdvance? || a.DbStray? || a.DbDelete? || a.DbDelivered?
    ensures EndSeen(Next(s, a))
  {
    hide From, Without, Overtakes;
  }

  lemma SeenBuffer(s: State, a: Action)
    requires EndSeen(s) && Enabled(s, a) && (a.BufferDelivered? || a.BufferSave?)
    ensures EndSeen(Next(s, a))
  {
    hide WriteBatch, Full, Backlog;
  }

  lemma {:induction false} RunEnds(s: State, actions: seq<Action>, s': State)
    requires Inv(s) && EarlyOk(s) && EndOk(s) && Runs(s, actions, s')
    ensures EndOk(s')
    decreases |actions|
  {
    hide Next, Enabled, Records, Counting, Flow, EarlyOk, EndOk, Control;
    if actions != [] {
      StepInv(s, actions[0]);
      StepEnds(s, actions[0]);
      RunEnds(Next(s, actions[0]), actions[1..], s');
    }
  }

  lemma {:induction false} RunSeen(s: State, actions: seq<Action>, s': State)
    requires EndSeen(s) && Runs(s, actions, s')
    ensures EndSeen(s')
    decreases |actions|
  {
    hide Next, Enabled, EndSeen;
    if actions != [] {
      StepSeen(s, actions[0]);
      RunSeen(Next(s, actions[0]), actions[1..], s');
    }
  }

  /** Only a queue that starts without a counter key, and whose buffer holds a
      full batch, can stray. */
  lemma StrayNeeds(cap: nat, batchSize: nat, db: seq<Entry>, saved: Option<nat>, actions: seq<Action>, s: State)
    requires Startable(db, saved) && Runs(Init(cap, batchSize, db, saved), actions, s) && s.past.strays != []
    ensures saved.None? && 1 <= batchSize <= cap
  {
    var s0 := Init(cap, batchSize, db, saved);
    InitStartable(cap, batchSize, db, saved);
    StartEnds(cap, batchSize, db, saved);
    hide Runs, Inv, EarlyOk, Init;
    RunEnds(s0, actions, s);
    RunLater(s0, actions, s);
    if saved.Some? {
      RunSeen(s0, actions, s);
    }
  }

  lemma StartEnds(cap: nat, batchSize: nat, db: seq<Entry>, saved: Option<nat>)
    requires Startable(db, saved)
    ensures var s := Init(cap, batchSize, db, saved);
            EarlyOk(s) && EndOk(s) && (saved.Some? ==> EndSeen(s)) && s.cap == cap && s.batchSize == batchSize
  {
  }

  // ----- and every such queue can -----

  /** The rest of a replay without end: it delivers its records and then a stray. */
  lemma {:induction false} DrainThenStray(s: State, req: Request) returns (acts: seq<Action>, t: State)
    requires s.disk.dr.Reading? && !s.disk.dr.use && !s.disk.dr.end
    ensures Runs(s, acts, t) && t.past.strays == s.past.strays + [req]
    decreases |s.disk.dr.rem|
  {
    hide Runs, Backlog, Overtakes;
    if s.disk.dr.rem == [] {
      var s1 := Next(s, DbStray(req));
      t := Next(s1, DbDelivered(true));
      RunsNone(t);
      RunsFirst(s1, DbDelivered(true), [], t);
      RunsFirst(s, DbStray(req), [DbDelivered(true)] + [], t);
      acts := [DbStray(req)] + ([DbDelivered(true)] + []);
    } else {
      var s1 := Next(s, DbAdvance);
      var s2 := Next(s1, DbDelivered(true));
      acts, t := DrainThenStray(s2, req);
      RunsFirst(s1, DbDelivered(true), acts, t);
      RunsFirst(s, DbAdvance, [DbDelivered(true)] + acts, t);
      acts := [DbAdvance] + ([DbDelivered(true)] + acts);
    }
  }

  lemma {:induction false} FromZero(db: seq<Entry>)
    ensures From(db, 0) == db
  {
    if db != [] {
      FromZero(db[1..]);
    }
  }

  lemma {:induction false} InsertSome(db: seq<Entry>, e: Entry)
    ensures Insert(db, e) != []
  {
  }

  lemma {:induction false} WriteBatchSome(db: seq<Entry>, batch: seq<Entry>)
    requires db != [] || batch != []
    ensures WriteBatch(db, batch) != []
    decreases |batch|
  {
    if batch != [] {
      InsertSome(db, batch[0]);
      WriteBatchSome(Insert(db, batch[0]), batch[1..]);
    }
  }

  /** A bufferRead that is stopping, before the replay has begun. */
  predicate Saving(s: State) {
    s.br.Select? && s.mode == ToDb && s.brQuit && !s.replayed && s.saved.None? && s.disk.dr == Off
  }

  lemma SaveOne(s: State)
    requires Saving(s) && s.buf != []
    ensures var t := Next(s, BufferSave);
            && Saving(t) && t.buf == s.buf[1..] && t.inBatch == s.inBatch + 1 && t.past == s.past
            && t.batchSize == s.batchSize
            && (Full(s.inBatch + 1, s.batchSize) ==> t.disk.db != [])
  {
    WriteBatchSome(s.disk.db, s.disk.batch + [Entry(s.disk.counter, s.buf[0])]);
    hide WriteBatch, Full;
  }

  /** Saving the last request that completes a batch writes the batch. */
  lemma {:induction false} SaveAll(s: State) returns (acts: seq<Action>, t: State)
    requires Saving(s) && s.buf != [] && s.inBatch + |s.buf| == s.batchSize
    ensures Runs(s, acts, t) && Saving(t) && t.disk.db != [] && t.past == s.past
    decreases |s.buf|
  {
    hide Runs, Saving, Full;
    SaveEnabled(s);
    SaveOne(s);
    var s1 := Next(s, BufferSave);
    if |s.buf| == 1 {
      OneBatch(s.batchSize);
      t, acts := s1, [];
      RunsNone(t);
    } else {
      acts, t := SaveAll(s1);
    }
    RunsFirst(s, BufferSave, acts, t);
    acts := [BufferSave] + acts;
  }

  lemma SaveEnabled(s: State)
    requires Saving(s) && s.buf != []
    ensures Enabled(s, BufferSave)
  {
  }

  lemma OneBatch(n: nat)
    requires n > 0
    ensures Full(n, n)
  {
    DivModUnique(n, n, 1, 0);
  }

  lemma {:induction false} PushAll(s: State, req: Request, n: nat) returns (acts: seq<Action>, t: State)
    requires !s.quit && !s.closed && |s.buf| + n <= s.cap
    ensures Runs(s, acts, t) && |t.buf| == |s.buf| + n
    ensures t == s.(buf := t.buf, past := t.past) && t.past.strays == s.past.strays
    decreases n
  {
    hide Runs;
    if n == 0 {
      t, acts := s, [];
      RunsNone(t);
    } else {
      var s1 := Next(s, Push(req));
      acts, t := PushAll(s1, req, n - 1);
      RunsFirst(s, Push(req), acts, t);
      acts := [Push(req)] + acts;
    }
  }

  /** From a stopping queue with records on disk the replay strays. */
  lemma ReplayStrays(s: State, req: Request) returns (acts: seq<Action>, t: State)
    requires Saving(s) && s.disk.db != []
    ensures Runs(s, acts, t) && t.past.strays == s.past.strays + [req]
  {
    hide Runs, From;
    FromZero(s.disk.db);
    var s1 := Next(s, StartReplay);
    var s2 := Next(s1, DbOpen);
    acts, t := DrainThenStray(s2, req);
    RunsFirst(s1, DbOpen, acts, t);
    RunsFirst(s, StartReplay, [DbOpen] + acts, t);
    acts := [StartReplay] + ([DbOpen] + acts);
  }

  /** A run in which the given request goes out although nobody asked for it. */
  lemma StrayRun(cap: nat, batchSize: nat, req: Request) returns (acts: seq<Action>, t: State)
    requires 1 <= batchSize <= cap
    ensures Runs(Init(cap, batchSize, [], None), acts, t) && t.past.strays == [req]
  {
    hide Runs;
    var s0 := Init(cap, batchSize, [], None);
    var xs, s1 := PushAll(s0, req, batchSize);
    var s2 := Next(s1, Stop);
    var s3 := Next(s2, BufferQuit);
    var ys, s4 := SaveAll(s3);
    var zs, s5 := ReplayStrays(s4, req);
    RunsConcat(s3, ys, s4, zs, s5);
    RunsFirst(s2, BufferQuit, ys + zs, s5);
    RunsFirst(s1, Stop, [BufferQuit] + (ys + zs), s5);
    RunsConcat(s0, xs, s1, [Stop] + ([BufferQuit] + (ys + zs)), s5);
    acts, t := xs + ([Stop] + ([BufferQuit] + (ys + zs))), s5;
    assert [] + [req] == [req];
  }

  /** A queue can send something that was never accepted exactly when it starts
      without a counter key and a full batch fits into its buffer. */
  lemma StrayIff(cap: nat, batchSize: nat, db: seq<Entry>, saved: Option<nat>)
    requires Startable(db, saved)
    ensures (exists acts, s :: Runs(Init(cap, batchSize, db, saved), acts, s) && s.past.strays != [])
            <==> saved.None? && 1 <= batchSize <= cap
  {
    if acts, s :| Runs(Init(cap, batchSize, db, saved), acts, s) && s.past.strays != [] {
      StrayNeeds(cap, batchSize, db, saved, acts, s);
    }
    if saved.None? && 1 <= batchSize <= cap {
      var acts, t := StrayRun(cap, batchSize, Request([], 0));
    }
  }

  /** For every other queue nothing is lost, added or duplicated. */
  lemma NothingAdded(cap: nat, batchSize: nat, db: seq<Entry>, saved: Option<nat>, actions: seq<Action>, s: State)
    requires Startable(db, saved) && Runs(Init(cap, batchSize, db, saved), actions, s)
    requires !(saved.None? && 1 <= batchSize <= cap)
    ensures multiset(s.past.accepted) == multiset(s.past.delivered) + multiset(Waiting(s))
  {
    QueueSafety(cap, batchSize, db, saved, actions, s);
    if s.past.strays != [] {
      StrayNeeds(cap, batchSize, db, saved, actions, s);
    }
  }

  // ----- restart -----

  /** What the second session was asked to send beyond the backlog of the first. */
  function Since(s: State, t: State): seq<Request> {
    var n := |Items(s.disk.db)|;
    if n <= |t.past.accepted| then t.past.accepted[n..] else []
  }

  /** Over a clean stop and a restart with distinct requests: what the two sessions
      deliver is the beginning of everything that was pushed, backlog first,
      exactly when neither session overtook. */
  lemma RestartOrderIff(cap: nat, batchSize: nat, db: seq<Entry>, saved: Option<nat>,
                        first: seq<Action>, s: State, second: seq<Action>, t: State)
    requires Startable(db, saved) && Runs(Init(cap, batchSize, db, saved), first, s)
    requires s.br.Stopped? && s.disk.dr == Off && s.past.strays == []
    requires Runs(Init(cap, batchSize, s.disk.db, s.saved), second, t)
    requires Distinct(s.past.accepted + Since(s, t))
    ensures t.past.accepted == Items(s.disk.db) + Since(s, t)
    ensures s.past.delivered + t.past.delivered <= s.past.accepted + Since(s, t)
            <==> !s.past.overtaken && !t.past.overtaken
  {
    hide Runs, Init, Items, Waiting, Startable, Distinct, Overtaking, Broken, InOrder;
    CleanStop(cap, batchSize, db, saved, first, s);
    RunLater(Init(cap, batchSize, s.disk.db, s.saved), second, t);
    InitHistory(cap, batchSize, s.disk.db, s.saved);
    var pushed := Since(s, t);
    assert t.past.accepted == Items(s.disk.db) + pushed;
    DistinctPrefix(s.past.accepted, s.past.accepted + pushed);
    SessionOrder(cap, batchSize, db, saved, first, s);
    if s.past.overtaken {
      BrokenNotPrefix(s.past, t.past.delivered, pushed);
    } else {
      assert s.past.accepted + pushed == s.past.delivered + t.past.accepted;
      DistinctSuffix(s.past.delivered, t.past.accepted);
      SessionOrder(cap, batchSize, s.disk.db, s.saved, second, t);
      if t.past.strays != [] {
        StrayNeeds(cap, batchSize, s.disk.db, s.saved, second, t);
      }
      SecondSession(s.past.delivered, t);
    }
  }

  /** One session with distinct requests. */
  lemma SessionOrder(cap: nat, batchSize: nat, db: seq<Entry>, saved: Option<nat>, actions: seq<Action>, s: State)
    requires Startable(db, saved) && Runs(Init(cap, batchSize, db, saved), actions, s) && Distinct(s.past.accepted)
    ensures if s.past.overtaken then Broken(s.past) else InOrder(s)
  {
    OrderIff(cap, batchSize, db, saved, actions, s);
    hide Runs, Startable, Distinct, Overtaking, Broken, InOrder;
    RunOvertakes(Init(cap, batchSize, db, saved), actions, s);
  }

  lemma BrokenNotPrefix(h: History, e: seq<Request>, p: seq<Request>)
    requires Broken(h) && h.strays == []
    ensures !(h.delivered + e <= h.accepted + p)
  {
    PrefixUnbroken(h.delivered, e, h.accepted, p);
  }

  lemma PrefixUnbroken(d: seq<Request>, e: seq<Request>, a: seq<Request>, p: seq<Request>)
    ensures d + e <= a + p ==> forall i :: 0 <= i < |d| && i < |a| ==> d[i] == a[i]
  {
    if d + e <= a + p {
      forall i | 0 <= i < |d| && i < |a|
        ensures d[i] == a[i]
      {
        assert (d + e)[i] == (a + p)[i];
      }
    }
  }

  lemma DistinctSuffix(a: seq<Request>, b: seq<Request>)
    requires Distinct(a + b)
    ensures Distinct(b)
  {
    forall i, j | 0 <= i < j < |b|
      ensures b[i] != b[j]
    {
      assert (a + b)[|a| + i] == b[i] && (a + b)[|a| + j] == b[j];
    }
  }

  lemma SecondSession(d: seq<Request>, t: State)
    requires t.past.strays == []
    ensures Broken(t.past) ==> !(d + t.past.delivered <= d + t.past.accepted)
    ensures InOrder(t) ==> d + t.past.delivered <= d + t.past.accepted
  {
    hide Waiting;
    if InOrder(t) {
      assert d + t.past.accepted == (d + t.past.delivered) + Waiting(t);
    }
    if Broken(t.past) {
      var i :| 0 <= i < |t.past.delivered| && i < |t.past.accepted| && t.past.delivered[i] != t.past.accepted[i];
      assert (d + t.past.delivered)[|d| + i] != (d + t.past.accepted)[|d| + i];
    }
  }
}
