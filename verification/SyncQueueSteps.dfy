/** Every step of the two-loop queue keeps its invariant. */
module SyncQueueSteps {
  import opened Bytes
  import opened SyncQueue

  // ----- how the flow changes -----

  lemma SameFlow(s: State, s': State)
    requires Flow(s) && Waiting(s') == Waiting(s)
    requires s'.past.accepted == s.past.accepted && s'.past.delivered == s.past.delivered
    requires s'.past.strays == s.past.strays && s'.past.overtaken == s.past.overtaken
    ensures Flow(s')
  {
  }

  lemma PushedFlow(s: State, s': State, req: Request)
    requires Flow(s) && Waiting(s') == Waiting(s) + [req]
    requires s'.past == s.past.(accepted := s.past.accepted + [req])
    ensures Flow(s')
  {
    hide Waiting;
    var h := s.past;
    assert s'.past.delivered + Waiting(s') == (h.delivered + Waiting(s)) + [req];
    assert multiset(h.accepted + [req] + h.strays) == multiset(h.accepted + h.strays) + multiset{req};
  }

  lemma DeliverMiddle(a: seq<Request>, d: seq<Request>, ahead: seq<Request>, x: Request, rest: seq<Request>)
    ensures multiset(a) == multiset(d + (ahead + [x] + rest)) ==> multiset(a) == multiset((d + [x]) + (ahead + rest))
    ensures ahead == [] && a == d + (ahead + [x] + rest) ==> a == (d + [x]) + (ahead + rest)
  {
    assert multiset(d + (ahead + [x] + rest)) == multiset(d) + multiset(ahead) + multiset{x} + multiset(rest);
    assert multiset((d + [x]) + (ahead + rest)) == multiset(d) + multiset{x} + multiset(ahead) + multiset(rest);
  }

  /** A delivery takes x out of the middle; the order survives if nothing is
      ahead of x. */
  lemma DeliveredFlow(s: State, s': State, ahead: seq<Request>, x: Request, rest: seq<Request>)
    requires Flow(s) && Waiting(s) == ahead + [x] + rest && Waiting(s') == ahead + rest
    requires s'.past.accepted == s.past.accepted && s'.past.delivered == s.past.delivered + [x]
    requires s'.past.strays == s.past.strays && (!s'.past.overtaken ==> !s.past.overtaken && ahead == [])
    ensures Flow(s')
  {
    hide Waiting;
    DeliverMiddle(s.past.accepted, s.past.delivered, ahead, x, rest);
    DeliverMiddle(s.past.accepted + s.past.strays, s.past.delivered, ahead, x, rest);
  }

  /** A stray delivery takes nothing out. */
  lemma StrayedFlow(s: State, s': State, x: Request)
    requires Flow(s) && Waiting(s') == Waiting(s)
    requires s'.past.accepted == s.past.accepted && s'.past.delivered == s.past.delivered + [x]
    requires s'.past.strays == s.past.strays + [x] && s'.past.overtaken
    ensures Flow(s')
  {
    hide Waiting;
    var h, w := s.past, Waiting(s);
    assert multiset(h.accepted + (h.strays + [x])) == multiset(h.accepted + h.strays) + multiset{x};
    assert multiset(h.delivered + [x] + w) == multiset(h.delivered + w) + multiset{x};
  }

  // ----- steps of the environment -----

  lemma PushInv(s: State, req: Request)
    requires Inv(s) && Enabled(s, Push(req))
    ensures Inv(Next(s, Push(req)))
  {
    hide Items, Records, Undelivered, Backlog, Flow;
    var s' := Next(s, Push(req));
    assert Waiting(s') == Waiting(s) + [req];
    PushedFlow(s, s', req);
  }

  lemma StopInv(s: State)
    requires Inv(s) && Enabled(s, Stop)
    ensures Inv(Next(s, Stop))
  {
    hide Items, Records, Undelivered, Backlog, Flow, Full;
    SameFlow(s, Next(s, Stop));
  }

  lemma StartReplayInv(s: State)
    requires Inv(s) && Enabled(s, StartReplay)
    ensures Inv(Next(s, StartReplay))
  {
    hide Items, Records, Undelivered, Backlog, Flow;
    var s' := Next(s, StartReplay);
    ReplayRecords(s.disk);
    SameFlow(s, s');
  }

  lemma ReplayRecords(d: Disk)
    requires Records(d) && d.dr == Off && d.skip == 0
    ensures var d' := d.(dr := Opening(0, false, 0));
            Records(d') && Undelivered(d') == Undelivered(d) && Backlog(d') == Backlog(d)
  {
    hide Sorted;
    assert PosOk(d.(dr := Opening(0, false, 0)), 0);
  }

  // ----- steps of bufferRead -----

  lemma BufferTakeInv(s: State)
    requires Inv(s) && Enabled(s, BufferTake)
    ensures Inv(Next(s, BufferTake))
  {
    hide Items, Records, Undelivered, Backlog, Flow, Waiting, Counting;
    var s' := Next(s, BufferTake);
    TakeWaiting(s);
    TakeCounting(s);
    SameFlow(s, s');
  }

  lemma TakeWaiting(s: State)
    requires s.br.Select? && s.buf != []
    ensures Waiting(s.(br := Delivering(s.buf[0]), buf := s.buf[1..])) == Waiting(s)
  {
    hide Items, Backlog;
    assert s.buf == [s.buf[0]] + s.buf[1..];
  }

  lemma TakeCounting(s: State)
    requires s.buf != []
    ensures Counting(s) ==> Counting(s.(br := Delivering(s.buf[0]), buf := s.buf[1..]))
  {
    hide Undelivered;
  }

  /** A delivery from the buffer in good order: nothing older is waiting. */
  lemma BufferDeliveredInv(s: State)
    requires Inv(s) && s.br.Delivering?
    ensures Inv(DoDelivered(s))
  {
    hide Records, Undelivered, Items, Backlog, Flow;
    var s' := DoDelivered(s);
    var ahead := Items(Backlog(s.disk));
    if Running(s) {
      EmptyBacklog(s);
    }
    NoItems();
    assert ahead + [] + s.buf == ahead + s.buf;
    DeliveredFlow(s, s', ahead, s.br.req, s.buf);
  }

  lemma EmptyBacklog(s: State)
    requires Control(s) && Counting(s) && s.mode == FromBuffer
    ensures Backlog(s.disk) == []
  {
  }

  lemma SaveControl(s: State, req: Request)
    requires Control(s) && s.mode == ToDb && s.br.Select?
    ensures Control(Save(s, req))
  {
    hide WriteBatch, Full;
  }

  lemma SaveFields(s: State, req: Request)
    requires Control(s) && s.mode == ToDb
    ensures var s' := Save(s, req);
            s'.past == s.past && s'.brQuit == s.brQuit && s'.buf == s.buf && s'.br == Select
  {
    hide Flush, Full, Batch;
  }

  lemma SaveCounting(s: State, req: Request)
    requires Control(s) && Records(s.disk) && s.mode == ToDb && Running(s) && Counting(s)
    ensures Counting(Save(s, req))
  {
    hide WriteBatch, Records, Items, Backlog, Full, Undelivered;
    SaveDisk(s, req);
    EmptyUndelivered(s.disk);
  }

  lemma EmptyUndelivered(d: Disk)
    ensures d.db == [] ==> Undelivered(d) == []
  {
  }

  lemma SaveInv(s: State, req: Request)
    requires Control(s) && Records(s.disk) && s.mode == ToDb && s.br.Select? && (Running(s) ==> Counting(s))
    ensures var s' := Save(s, req);
            && Control(s') && Records(s'.disk) && (Running(s') ==> Counting(s'))
            && Waiting(s') == Items(Backlog(s.disk)) + [req] + s.buf && s'.past == s.past
  {
    hide Items, Records, Backlog, Undelivered, Save, Counting;
    SaveDisk(s, req);
    SaveControl(s, req);
    SaveFields(s, req);
    if Running(s) {
      SaveCounting(s, req);
    }
    assert Items(Backlog(s.disk)) + [req] + [] + s.buf == Items(Backlog(s.disk)) + [req] + s.buf;
  }

  lemma BufferSaveInv(s: State)
    requires Inv(s) && Enabled(s, BufferSave)
    ensures Inv(Next(s, BufferSave))
  {
    hide Items, Records, Backlog, Undelivered, Save, Flow;
    var s1, req := s.(buf := s.buf[1..]), s.buf[0];
    SaveInv(s1, req);
    assert s.buf == [req] + s.buf[1..];
    assert Items(Backlog(s.disk)) + [req] + s.buf[1..] == Waiting(s);
    SameFlow(s, Save(s1, req));
  }

  lemma BufferFailedInv(s: State)
    requires Inv(s) && s.br.Delivering? && s.quit
    ensures Inv(DoFailed(s))
  {
    hide Items, Records, Backlog, Undelivered, Save, Flow;
    var s1 := s.(mode := ToDb, closed := true, brQuit := true, past := s.past.(failed := true));
    SaveIgnoresLoop(s1, s.br.req);
    SaveInv(s1.(br := Select), s.br.req);
    SameFlow(s, DoFailed(s));
  }

  lemma SaveIgnoresLoop(s: State, req: Request)
    ensures Save(s, req) == Save(s.(br := Select), req)
  {
    hide Flush, Full, Batch;
  }

  lemma BufferFinishInv(s: State)
    requires Inv(s) && Enabled(s, BufferFinish)
    ensures Inv(DoFinish(s))
  {
    hide Items, Records, Backlog, Undelivered, Counting, WriteBatch, Flow;
    FlushRecords(s.disk);
    FlushParts(s.disk);
    assert Waiting(DoFinish(s)) == Waiting(s);
    SameFlow(s, DoFinish(s));
  }

  lemma BufferQuitInv(s: State)
    requires Inv(s) && Enabled(s, BufferQuit)
    ensures Inv(Next(s, BufferQuit))
  {
    hide Items, Records, Undelivered, Backlog, Counting, Flow;
    SameFlow(s, Next(s, BufferQuit));
  }

  // ----- steps of dbRead -----

  lemma HandoverInv(s: State)
    requires Inv(s) && s.br.Select? && s.disk.dr.Asking?
    ensures Inv(DoHandover(s))
  {
    hide Items, Flow, Control, Counting, Records, Backlog, Undelivered, DoHandover;
    HandoverControl(s);
    HandoverDisk(s);
    HandoverFields(s);
    if Running(s) {
      HandoverCounting(s);
    }
    SameFlow(s, DoHandover(s));
  }

  lemma HandoverFields(s: State)
    requires s.disk.dr.Asking?
    ensures var s' := DoHandover(s); s'.past == s.past && s'.brQuit == s.brQuit && s'.br == s.br && s'.buf == s.buf
  {
    hide Flush;
  }

  /** Switching back to the buffer leaves no record behind unless one failed. */
  lemma HandoverControl(s: State)
    requires Control(s) && Records(s.disk) && (Running(s) ==> Counting(s))
    requires s.br.Select? && s.disk.dr.Asking?
    ensures Control(DoHandover(s))
  {
    hide Records, Backlog, WriteBatch, Undelivered;
    SkipAll(s.disk);
  }

  lemma HandoverDisk(s: State)
    requires Records(s.disk) && s.disk.dr.Asking?
    ensures var d' := DoHandover(s).disk; Records(d') && Backlog(d') == Backlog(s.disk)
  {
    hide Records, Backlog, WriteBatch;
    var d := s.disk;
    SkipAll(d);
    FlushRecords(d);
    FlushParts(d);
    OffRecords(Flush(d));
    OpeningRecords(Flush(d), true, s.inBatch);
  }

  lemma HandoverCounting(s: State)
    requires Control(s) && Records(s.disk) && Running(s) && Counting(s) && s.disk.dr.Asking?
    ensures Counting(DoHandover(s))
  {
    hide Records, Backlog, WriteBatch, Undelivered;
    var d := s.disk;
    SkipAll(d);
    FlushParts(d);
    FlushRecords(d);
    OffRecords(Flush(d));
    OpeningRecords(Flush(d), true, s.inBatch);
  }

  lemma DbQuitInv(s: State)
    requires Inv(s) && Enabled(s, DbQuit)
    ensures Inv(Next(s, DbQuit))
  {
    hide Items, Records, Undelivered, Backlog, Flow;
    OffRecords(s.disk);
    SameFlow(s, Next(s, DbQuit));
  }

  lemma DbOpenInv(s: State)
    requires Inv(s) && s.disk.dr.Opening?
    ensures Inv(s.(disk := Open(s.disk, s.saved.Some?)))
  {
    hide Items, Records, Backlog, Open, Undelivered, Flow, Counting, Control;
    var s' := s.(disk := Open(s.disk, s.saved.Some?));
    OpenRecords(s.disk, s.saved.Some?);
    OpenControl(s);
    if Running(s) {
      OpenCounting(s);
    }
    SameFlow(s, s');
  }

  lemma OpenControl(s: State)
    requires Control(s) && s.disk.dr.Opening?
    ensures Control(s.(disk := Open(s.disk, s.saved.Some?)))
  {
    hide From;
  }

  lemma OpenCounting(s: State)
    requires Control(s) && Records(s.disk) && Running(s) && Counting(s) && s.disk.dr.Opening?
    ensures Counting(s.(disk := Open(s.disk, s.saved.Some?)))
  {
    hide Records, Backlog, From, Undelivered;
    OpenRecords(s.disk, s.saved.Some?);
    OpenAll(s.disk);
  }

  lemma OpenAll(d: Disk)
    requires d.dr.Opening?
    ensures d.skip == 0 ==> Undelivered(d) == d.db
  {
  }

  lemma DbAdvanceInv(s: State)
    requires Inv(s) && Enabled(s, DbAdvance)
    ensures Inv(Next(s, DbAdvance))
  {
    hide Items, Records, Backlog, Undelivered, Flow, Control, Counting;
    AdvanceRecords(s.disk);
    AdvanceControl(s);
    SameFlow(s, Next(s, DbAdvance));
  }

  lemma AdvanceControl(s: State)
    requires Control(s) && Records(s.disk) && (Running(s) ==> Counting(s)) && Enabled(s, DbAdvance)
    ensures var s' := Next(s, DbAdvance); Control(s') && (Running(s') ==> Counting(s'))
  {
    hide Records, Backlog, Undelivered;
    AdvanceRecords(s.disk);
  }

  /** The loop can run past the end only after bufferRead has begun to stop. */
  lemma DbStrayInv(s: State, req: Request)
    requires Inv(s) && Enabled(s, DbStray(req))
    ensures Inv(Next(s, DbStray(req)))
  {
    hide Items, Records, Backlog, Undelivered, Flow;
    StrayRecords(s.disk, req);
    SameFlow(s, Next(s, DbStray(req)));
  }

  lemma DbStrayedInv(s: State)
    requires Inv(s) && s.disk.dr.Straying?
    ensures Inv(DoStrayed(s))
  {
    hide Items, Records, Backlog, Undelivered, Flow, Counting;
    StrayedRecords(s.disk);
    StrayingNotRunning(s);
    StrayedFlow(s, DoStrayed(s), s.disk.dr.req);
  }

  lemma StrayingNotRunning(s: State)
    requires s.disk.dr.Straying?
    ensures !Counting(s)
  {
  }

  lemma DbSentInv(s: State)
    requires Inv(s) && s.disk.dr.Sending? && s.disk.dr.rem != []
    ensures Inv(DoSent(s))
  {
    hide Items, Reader, Backlog, Undelivered, Flow, Ordered, Counting, Sent;
    var s', d := DoSent(s), s.disk;
    SentRecords(d);
    SentOrdered(d);
    SentWaiting(s);
    SentControl(s);
    if Running(s) {
      SentCounting(s);
    }
    var ahead := Items(if d.skip <= |d.db| then d.db[..d.skip] else []);
    assert d.db[..0] == [];
    NoItems();
    DeliveredFlow(s, s', ahead, d.dr.rem[0].req, Items(Undelivered(s'.disk) + d.batch) + InFlight(s) + s.buf);
  }

  lemma SentControl(s: State)
    requires Control(s) && s.disk.dr.Sending? && s.disk.dr.rem != []
    ensures Control(DoSent(s))
  {
  }

  lemma SentCounting(s: State)
    requires Control(s) && Records(s.disk) && Running(s) && Counting(s)
    requires s.disk.dr.Sending? && s.disk.dr.rem != []
    ensures Counting(DoSent(s))
  {
    hide Records, Backlog, Undelivered;
    SentRecords(s.disk);
  }

  lemma NoItems()
    ensures Items([]) == []
  {
  }

  lemma SentOrdered(d: Disk)
    requires Ordered(d) && d.dr.Sending? && d.dr.rem != []
    ensures Ordered(d.(dr := Sent(d.dr)))
  {
  }

  lemma SentWaiting(s: State)
    requires Records(s.disk) && s.disk.dr.Sending? && s.disk.dr.rem != []
    ensures var d, s' := s.disk, DoSent(s);
            var ahead := Items(if d.skip <= |d.db| then d.db[..d.skip] else []);
            var rest := Items(Undelivered(s'.disk) + d.batch) + InFlight(s) + s.buf;
            Waiting(s) == ahead + [d.dr.rem[0].req] + rest && Waiting(s') == ahead + rest
  {
    hide Items, Records, Undelivered, Backlog;
    var d, d', x := s.disk, DoSent(s).disk, s.disk.dr.rem[0];
    var older, u' := if d.skip <= |d.db| then d.db[..d.skip] else [], Undelivered(d');
    SentBacklog(d);
    ItemsConcat(older, [x] + (u' + d.batch));
    ItemsConcat(older, u' + d.batch);
    ItemsCons(x, u' + d.batch);
  }

  lemma SentBacklog(d: Disk)
    requires Records(d) && d.dr.Sending? && d.dr.rem != []
    ensures var d' := d.(dr := Sent(d.dr));
            var older, rest := if d.skip <= |d.db| then d.db[..d.skip] else [], Undelivered(d') + d.batch;
            Backlog(d) == older + ([d.dr.rem[0]] + rest) && Backlog(d') == older + rest
  {
    hide Records, Undelivered;
    SentRecords(d);
    var d', x := d.(dr := Sent(d.dr)), d.dr.rem[0];
    var older := if d.skip <= |d.db| then d.db[..d.skip] else [];
    assert Undelivered(d) == [x] + Undelivered(d');
    ConcatAssoc(older, Undelivered(d'), d.batch);
    ConcatAssoc(older, [x] + Undelivered(d'), d.batch);
    ConcatAssoc([x], Undelivered(d'), d.batch);
  }

  lemma ItemsCons(x: Entry, es: seq<Entry>)
    ensures Items([x] + es) == [x.req] + Items(es)
  {
    assert ([x] + es)[1..] == es;
  }

  lemma DbAbortedInv(s: State)
    requires Inv(s) && (s.disk.dr.Sending? || s.disk.dr.Straying?) && s.quit
    ensures Inv(DoAborted(s))
  {
    hide Items, Records, Backlog, Undelivered, Flow, Counting;
    AbortedRecords(s.disk);
    SameFlow(s, DoAborted(s));
  }

  lemma DbDeleteInv(s: State)
    requires Inv(s) && s.disk.dr.Deleting?
    ensures Inv(s.(disk := Delete(s.disk)))
  {
    hide Items, Records, Backlog, Undelivered, Flow, Without;
    DeleteRecords(s.disk);
    EmptyUndelivered(s.disk);
    SameFlow(s, s.(disk := Delete(s.disk)));
  }

  lemma StepInv(s: State, a: Action)
    requires Inv(s) && Enabled(s, a)
    ensures Inv(Next(s, a))
  {
    hide Inv;
    match a
    case Push(req) => PushInv(s, req);
    case Stop => StopInv(s);
    case StartReplay => StartReplayInv(s);
    case BufferTake => BufferTakeInv(s);
    case BufferDelivered(ok) => if ok { BufferDeliveredInv(s); } else { BufferFailedInv(s); }
    case BufferSave => BufferSaveInv(s);
    case BufferFinish => BufferFinishInv(s);
    case BufferQuit => BufferQuitInv(s);
    case Handover => HandoverInv(s);
    case DbQuit => DbQuitInv(s);
    case DbOpen => DbOpenInv(s);
    case DbAdvance => DbAdvanceInv(s);
    case DbStray(req) => DbStrayInv(s, req);
    case DbDelivered(ok) =>
      if !ok { DbAbortedInv(s); } else if s.disk.dr.Sending? { DbSentInv(s); } else { DbStrayedInv(s); }
    case DbDelete => DbDeleteInv(s);
  }
}
