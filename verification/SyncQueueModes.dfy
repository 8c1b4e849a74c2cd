/** The switching rules of the queue: when bufferRead leaves the memory buffer and
    when it comes back, when a batch of records is written, and when a dbRead loop
    begins and ends. */
module SyncQueueModes {
  import opened Bytes
  import opened SyncQueue
  import opened SyncQueueSteps
  import opened SyncQueueRuns

  // ----- buffer or database -----

  /** Buffer mode is left exactly when a delivery ends with a full buffer, when a
      delivery fails, and when bufferRead takes the quit signal. */
  lemma LeavesBuffer(s: State, a: Action)
    requires Control(s) && Enabled(s, a) && s.mode == FromBuffer
    ensures Next(s, a).mode == ToDb <==>
              || (a == BufferDelivered(true) && |s.buf| == s.cap)
              || a == BufferDelivered(false)
              || a == BufferQuit
    ensures Next(s, a).mode != ToDb ==> Next(s, a).mode == FromBuffer
  {
    if a.BufferDelivered? || a.BufferSave? {
      BufferMode(s, a);
    } else {
      hide Flush, Open, Delete, Deliver, Advance;
    }
  }

  lemma BufferMode(s: State, a: Action)
    requires Enabled(s, a) && (a.BufferDelivered? || a.BufferSave?)
    ensures a == BufferDelivered(true) ==> Next(s, a).mode == if |s.buf| == s.cap then ToDb else s.mode
    ensures a == BufferDelivered(false) ==> Next(s, a).mode == ToDb
    ensures a == BufferSave ==> Next(s, a).mode == s.mode
  {
    hide Flush, Full, Batch, Deliver;
  }

  /** Buffer mode is entered exactly when dbRead asks for a batch and there is none,
      as long as the queue is not stopping. */
  lemma EntersBuffer(s: State, a: Action)
    requires Control(s) && Enabled(s, a) && s.mode != FromBuffer
    ensures Next(s, a).mode == FromBuffer <==> a == Handover && s.inBatch == 0 && !s.brQuit
    ensures s.mode == Idle ==> (Next(s, a).mode == ToDb <==> a == BufferQuit)
    ensures Next(s, a).mode == Idle ==> s.mode == Idle
  {
    if a.BufferDelivered? || a.BufferSave? {
      BufferMode(s, a);
    } else {
      hide Flush, Open, Delete, Deliver, Advance;
    }
  }

  // ----- records -----

  predicate Saves(a: Action) {
    a == BufferSave || a == BufferDelivered(false)
  }

  /** The request that a saving step turns into a record. */
  function Saved(s: State, a: Action): Request
    requires Enabled(s, a) && Saves(a)
  {
    if a == BufferSave then s.buf[0] else s.br.req
  }

  /** What a save does to the disk, with the batch written or not. */
  ghost predicate Appended(d: Disk, d': Disk, req: Request, written: bool) {
    && d'.db + d'.batch == d.db + d.batch + [Entry(d.counter, req)]
    && (d'.batch == [] <==> written)
    && (!written ==> d'.db == d.db)
    && d'.counter == d.counter + 1
  }

  lemma BatchAppends(d: Disk, req: Request, start: bool)
    requires Records(d) && (start ==> MayStart(d))
    ensures var d1 := Batch(d, req, start); Appended(d, d1, req, false) && Appended(d, Flush(d1), req, true)
  {
    var d1 := Batch(d, req, start);
    BatchOrdered(d, req, start);
    BatchReader(d, req, start);
    FlushParts(d1);
    FlushEmpties(d1);
    hide Records, Ordered, Reader, Flush, Undelivered, Backlog;
    ConcatAssoc(d.db, d.batch, [Entry(d.counter, req)]);
    assert Flush(d1).db + [] == Flush(d1).db;
  }

  lemma SaveWrites(s: State, req: Request)
    requires Records(s.disk) && (s.inDb == 0 && !s.brQuit ==> MayStart(s.disk))
    ensures var s' := Save(s, req);
            && Appended(s.disk, s'.disk, req, s.batchSize > 0 && (s.inBatch + 1) % s.batchSize == 0)
            && s'.inBatch == s.inBatch + 1 && s'.inDb == s.inDb + 1 && s'.saved == s.saved
            && s'.disk.dr == (if s.inDb == 0 && !s.brQuit then Asking(s.disk.counter) else s.disk.dr)
  {
    var start := s.inDb == 0 && !s.brQuit;
    BatchAppends(s.disk, req, start);
    FlushEmpties(Batch(s.disk, req, start));
    FullMeans(s.inBatch + 1, s.batchSize);
    hide Records, Appended, Flush, Full;
  }

  lemma FullMeans(n: nat, batchSize: nat)
    ensures Full(n, batchSize) <==> batchSize > 0 && n % batchSize == 0
  {
  }

  /** A saving step appends one record, numbered by the counter. The batch is
      written exactly when the number of records in it is a multiple of the batch
      size. */
  lemma SavingStep(s: State, a: Action)
    requires Inv(s) && Enabled(s, a) && Saves(a)
    ensures var d, s' := s.disk, Next(s, a);
            && s'.disk.db + s'.disk.batch == d.db + d.batch + [Entry(d.counter, Saved(s, a))]
            && (s'.disk.batch == [] <==> s.batchSize > 0 && (s.inBatch + 1) % s.batchSize == 0)
            && (s'.disk.batch != [] ==> s'.disk.db == d.db)
            && s'.disk.counter == d.counter + 1 && s'.saved == s.saved
            && s'.inBatch == s.inBatch + 1 && s'.inDb == s.inDb + 1
  {
    hide Records, Counting, Flow, Save, Full;
    if a == BufferSave {
      SaveWrites(s.(buf := s.buf[1..]), s.buf[0]);
    } else {
      SaveWrites(s.(mode := ToDb, closed := true, brQuit := true, past := s.past.(failed := true)), s.br.req);
    }
  }

  /** Besides, the batch is written when dbRead asks for it and when bufferRead
      stops; exactly then the counter is saved with it. */
  lemma OtherWrites(s: State, a: Action)
    requires Inv(s) && Enabled(s, a) && !Saves(a)
    ensures if a == BufferFinish || (a == Handover && !(s.inBatch == 0 && !s.brQuit))
            then Written(s, Next(s, a)) else Unwritten(s, Next(s, a), a == DbDelete)
    ensures Next(s, a).inBatch == if a == Handover then 0 else s.inBatch
    ensures Next(s, a).inDb == if a == Handover && s.inBatch == 0 && !s.brQuit then 0 else s.inDb
  {
    if a == Handover || a == BufferFinish {
      FlushWrites(s, a);
    } else if a.DbOpen? || a.DbAdvance? || a.DbStray? || a.DbDelivered? || a.DbDelete? || a.DbQuit? {
      ReaderWritesNothing(s, a);
    } else {
      QuietStep(s, a);
    }
  }

  /** The whole batch is on disk and the counter is saved. */
  ghost predicate Written(s: State, s': State) {
    && s'.disk.batch == [] && s'.disk.db == s.disk.db + s.disk.batch
    && s'.disk.counter == s.disk.counter && s'.saved == Some(s.disk.counter)
  }

  ghost predicate Unwritten(s: State, s': State, deletes: bool) {
    && s'.disk.batch == s.disk.batch && (!deletes ==> s'.disk.db == s.disk.db)
    && s'.disk.counter == s.disk.counter && s'.saved == s.saved
  }

  lemma FlushWrites(s: State, a: Action)
    requires Inv(s) && Enabled(s, a) && (a == Handover || a == BufferFinish)
    ensures if a == BufferFinish || !(s.inBatch == 0 && !s.brQuit)
            then Written(s, Next(s, a)) else Unwritten(s, Next(s, a), false)
    ensures Next(s, a).inBatch == if a == Handover then 0 else s.inBatch
    ensures Next(s, a).inDb == if a == Handover && s.inBatch == 0 && !s.brQuit then 0 else s.inDb
  {
    FlushParts(s.disk);
    FlushEmpties(s.disk);
    hide Inv, Flush, Undelivered, Backlog;
  }

  lemma QuietStep(s: State, a: Action)
    requires Enabled(s, a)
    requires a.Push? || a.Stop? || a.StartReplay? || a.BufferTake? || a == BufferDelivered(true) || a.BufferQuit?
    ensures Unwritten(s, Next(s, a), false) && Next(s, a).inBatch == s.inBatch && Next(s, a).inDb == s.inDb
  {
    hide Deliver, Overtakes;
  }

  lemma ReaderWritesNothing(s: State, a: Action)
    requires Enabled(s, a)
    requires a.DbOpen? || a.DbAdvance? || a.DbStray? || a.DbDelivered? || a.DbDelete? || a.DbQuit?
    ensures Unwritten(s, Next(s, a), a == DbDelete) && Next(s, a).inBatch == s.inBatch && Next(s, a).inDb == s.inDb
  {
    hide From, Without, Deliver, Overtakes;
  }

  // ----- dbRead -----

  /** A dbRead loop begins exactly with a replay, and with the first record saved
      after the switch to the database while the queue is not stopping; it then
      looks from that record on. */
  lemma ReaderStarts(s: State, a: Action)
    requires Inv(s) && Enabled(s, a) && s.disk.dr == Off
    ensures Next(s, a).disk.dr != Off <==> a == StartReplay || (a == BufferSave && s.inDb == 0 && !s.brQuit)
    ensures a == StartReplay ==> Next(s, a).disk.dr == Opening(0, false, 0)
    ensures Saves(a) && Next(s, a).disk.dr != Off ==> Next(s, a).disk.dr == Asking(s.disk.counter)
  {
    FlushEmpties(s.disk);
    hide Records, Counting, Flow, Save, Flush, Backlog, Appended;
    if a == BufferSave {
      SaveWrites(s.(buf := s.buf[1..]), s.buf[0]);
    } else if a == BufferDelivered(false) {
      SaveWrites(s.(mode := ToDb, closed := true, brQuit := true, past := s.past.(failed := true)), s.br.req);
    }
  }

  /** It ends exactly when it takes the quit signal or is handed an empty batch. */
  lemma ReaderEnds(s: State, a: Action)
    requires Inv(s) && Enabled(s, a) && s.disk.dr != Off
    ensures Next(s, a).disk.dr == Off <==> a == DbQuit || (a == Handover && s.inBatch == 0)
    ensures a == Handover && s.inBatch > 0 ==> Next(s, a).disk.dr == Opening(s.disk.dr.pos, true, s.inBatch)
  {
    FlushEmpties(s.disk);
    hide Records, Counting, Flow, Save, Flush, Backlog, From, Without, Appended;
    if a == BufferSave {
      SaveWrites(s.(buf := s.buf[1..]), s.buf[0]);
    }
  }

  /** When its iterator meets the counter key before it has sent what it was
      promised, dbRead starts over from the first record, so that nothing that was
      left behind stays behind. */
  lemma ReaderStartsOver(s: State)
    requires Inv(s) && s.disk.dr.Reading? && s.disk.dr.rem == [] && s.disk.dr.end
    requires s.disk.dr.use ==> s.disk.dr.n < s.disk.dr.cnt
    ensures Enabled(s, DbAdvance) && Enabled(Next(s, DbAdvance), DbDelete)
    ensures var s' := Next(Next(s, DbAdvance), DbDelete);
            s'.disk.dr == Asking(0) && s'.disk.skip == 0 && Undelivered(s'.disk) == s'.disk.db
  {
    hide Inv, Without;
    var s1 := Next(s, DbAdvance);
    assert s1.disk.dr == Deleting(0, true, s.disk.dr.del);
  }

  // ----- numbering -----

  /** How many of the actions turn a request into a record. */
  function SaveCount(actions: seq<Action>): nat {
    if actions == [] then 0 else (if Saves(actions[0]) then 1 else 0) + SaveCount(actions[1..])
  }

  lemma {:induction false} RunNumbers(s: State, actions: seq<Action>, s': State)
    requires Inv(s) && Runs(s, actions, s')
    ensures s'.disk.counter == s.disk.counter + SaveCount(actions)
    decreases |actions|
  {
    hide Inv, Next, Enabled, Saved, Unwritten, Written;
    if actions != [] {
      StepInv(s, actions[0]);
      CounterStep(s, actions[0]);
      RunNumbers(Next(s, actions[0]), actions[1..], s');
    }
  }

  lemma CounterStep(s: State, a: Action)
    requires Inv(s) && Enabled(s, a)
    ensures Next(s, a).disk.counter == s.disk.counter + if Saves(a) then 1 else 0
  {
    hide Inv, Next, Enabled;
    if Saves(a) {
      SavingStep(s, a);
    } else {
      OtherWrites(s, a);
    }
  }

  /** The records of a session are numbered on from the saved counter, or from 0
      when none was saved. */
  lemma NumbersContinue(cap: nat, batchSize: nat, db: seq<Entry>, saved: Option<nat>, actions: seq<Action>, s: State)
    requires Startable(db, saved) && Runs(Init(cap, batchSize, db, saved), actions, s)
    ensures s.disk.counter == (if saved.Some? then saved.value else 0) + SaveCount(actions)
  {
    InitStartable(cap, batchSize, db, saved);
    hide Runs, Inv, SaveCount;
    RunNumbers(Init(cap, batchSize, db, saved), actions, s);
  }
}
