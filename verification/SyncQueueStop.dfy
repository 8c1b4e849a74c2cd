/** Stopping the queue: bufferRead always gets there, a replay need not, and on
    the way a later request may overtake an earlier one. */
module SyncQueueStop {
  import opened Bytes
  import opened SyncQueue
  import opened SyncQueueSteps
  import opened SyncQueueRuns

  // ----- bufferRead -----

  predicate OwnStep(a: Action) {
    a == BufferQuit || a == BufferDelivered(false) || a == BufferSave || a == BufferFinish
  }

  /** How many steps bufferRead has left. */
  function Left(s: State): nat {
    if s.br.Stopped? then 0
    else |s.buf| + 1 + (if s.br.Delivering? then 2 else 0) + (if s.brQuit then 0 else 1)
  }

  /** Once the queue is told to stop bufferRead always has a step of its own that
      brings it nearer to the end, whatever dbRead does. */
  lemma StopProceeds(s: State) returns (a: Action)
    requires Inv(s) && s.quit && !s.br.Stopped?
    ensures OwnStep(a) && Enabled(s, a) && Left(Next(s, a)) < Left(s) && Next(s, a).quit
  {
    hide Records, Counting, Flow, Flush, Full, Batch;
    a := if s.br.Delivering? then BufferDelivered(false)
         else if !s.brQuit then BufferQuit
         else if s.buf != [] then BufferSave else BufferFinish;
  }

  /** So from every reachable state stop() returns after finitely many such steps. */
  lemma {:induction false} StopEnds(s: State) returns (acts: seq<Action>, t: State)
    requires Inv(s) && s.quit
    ensures Runs(s, acts, t) && t.br.Stopped? && forall a :: a in acts ==> OwnStep(a)
    decreases Left(s)
  {
    hide Inv, Runs, Next, Enabled, Left, OwnStep;
    if s.br.Stopped? {
      acts, t := [], s;
      RunsNone(s);
    } else {
      var a := StopProceeds(s);
      StepInv(s, a);
      acts, t := StopEnds(Next(s, a));
      RunsFirst(s, a, acts, t);
      acts := [a] + acts;
    }
  }

  // ----- a replay -----

  /** A replay without batches never looks at the quit signal. */
  lemma ReplayIgnoresQuit(s: State)
    requires !s.disk.dr.Off? && !InUse(s.disk.dr)
    ensures !Enabled(s, DbQuit) && !Enabled(s, Handover)
  {
  }

  function Aborted(d: Disk): Disk
    requires d.dr.Sending?
  {
    d.(dr := Deleting(d.dr.pos, d.dr.use, d.dr.del))
  }

  lemma SpinOpens(d: Disk, end: bool)
    requires Records(d) && d.dr.Sending? && !d.dr.use && d.skip == 0
    ensures var d3 := Open(Delete(Aborted(d)), end);
            && d3.dr.Reading? && !d3.dr.use && d3.dr.rem == Undelivered(d) && Records(d3) && Backlog(d3) == Backlog(d)
            && Undelivered(d) != [] && d.dr.rem != [] && Undelivered(d)[0] == d.dr.rem[0]
  {
    hide Records, Undelivered, Backlog, From, Without;
    SentRecords(d);
    AbortedRecords(d);
    DeleteRecords(Aborted(d));
    OpenRecords(Delete(Aborted(d)), end);
  }

  /** After a delivery has been aborted four steps of its own lead it back to the
      same record, so it spins for as long as deliveries are aborted. */
  lemma ReplaySpins(s: State) returns (t: State)
    requires Inv(s) && s.quit && s.disk.dr.Sending? && !s.disk.dr.use
    ensures Runs(s, [DbDelivered(false), DbDelete, DbOpen, DbAdvance], t)
    ensures t.disk.dr.Sending? && !t.disk.dr.use && t.disk.dr.rem != []
    ensures s.disk.dr.rem != [] && t.disk.dr.rem[0] == s.disk.dr.rem[0]
    ensures t.past.delivered == s.past.delivered && Backlog(t.disk) == Backlog(s.disk)
  {
    hide Runs, Inv, Next, Enabled, Undelivered, Backlog, Open, Delete, Records;
    NoSkip(s);
    SpinOpens(s.disk, s.saved.Some?);
    var s1 := AbortStep(s);
    var s2 := DeleteStep(s1);
    var s3 := OpenStep(s2);
    t := AdvanceStep(s3);
    RunsFour(s, DbDelivered(false), s1, DbDelete, s2, DbOpen, s3, DbAdvance, t);
  }

  lemma NoSkip(s: State)
    requires Inv(s) && s.disk.dr.Sending? && !s.disk.dr.use
    ensures s.disk.skip == 0 && Records(s.disk)
  {
    hide Records, Counting, Flow;
  }

  lemma AbortStep(s: State) returns (t: State)
    requires s.disk.dr.Sending? && s.disk.dr.rem != [] && s.quit
    ensures Enabled(s, DbDelivered(false)) && t == Next(s, DbDelivered(false))
    ensures t == s.(disk := Aborted(s.disk), past := s.past.(failed := true))
  {
    t := Next(s, DbDelivered(false));
  }

  lemma DeleteStep(s: State) returns (t: State)
    requires s.disk.dr.Deleting? && !s.disk.dr.use
    ensures Enabled(s, DbDelete) && t == Next(s, DbDelete) && t == s.(disk := Delete(s.disk)) && t.disk.dr.Opening?
  {
    hide Without;
    t := Next(s, DbDelete);
  }

  lemma OpenStep(s: State) returns (t: State)
    requires s.disk.dr.Opening?
    ensures Enabled(s, DbOpen) && t == Next(s, DbOpen) && t == s.(disk := Open(s.disk, s.saved.Some?))
  {
    hide Open;
    t := Next(s, DbOpen);
  }

  lemma AdvanceStep(s: State) returns (t: State)
    requires s.disk.dr.Reading? && !s.disk.dr.use && s.disk.dr.rem != [] && Records(s.disk)
    ensures Enabled(s, DbAdvance) && t == Next(s, DbAdvance) && t.past == s.past
    ensures t.disk.dr.Sending? && !t.disk.dr.use && t.disk.dr.rem == s.disk.dr.rem && Backlog(t.disk) == Backlog(s.disk)
  {
    AdvanceRecords(s.disk);
    hide Records, Undelivered, Backlog;
    t := Next(s, DbAdvance);
  }

  lemma RunsFour(s: State, a: Action, s1: State, b: Action, s2: State, c: Action, s3: State, d: Action, s4: State)
    requires Enabled(s, a) && s1 == Next(s, a) && Enabled(s1, b) && s2 == Next(s1, b)
    requires Enabled(s2, c) && s3 == Next(s2, c) && Enabled(s3, d) && s4 == Next(s3, d)
    ensures Runs(s, [a, b, c, d], s4)
  {
    hide Enabled, Next, Runs;
    RunsNone(s4);
    RunsFirst(s3, d, [], s4);
    assert [d] + [] == [d];
    RunsFirst(s2, c, [d], s4);
    assert [c] + [d] == [c, d];
    RunsFirst(s1, b, [c, d], s4);
    assert [b] + [c, d] == [b, c, d];
    RunsFirst(s, a, [b, c, d], s4);
    assert [a] + [b, c, d] == [a, b, c, d];
  }

  // ----- the order can be lost -----

  const A: Request := Request([], 0)
  const B: Request := Request([], 1)
  const C: Request := Request([], 2)

  lemma RunsOne(s: State, a: Action)
    requires Enabled(s, a)
    ensures Runs(s, [a], Next(s, a))
  {
  }

  /** Appending one step to a run. */
  lemma RunsThen(s: State, xs: seq<Action>, t: State, a: Action)
    requires Runs(s, xs, t) && Enabled(t, a)
    ensures Runs(s, xs + [a], Next(t, a))
  {
    hide Enabled, Next;
    RunsOne(t, a);
    RunsConcat(s, xs, t, [a], Next(t, a));
  }

  lemma NoBacklog()
    ensures Backlog(Disk([], [], 0, Off, 0)) == []
  {
  }

  /** First leg: A is delivered from the buffer, B fills it. */
  lemma LegOne(s0: State) returns (xs: seq<Action>, s: State)
    requires s0 == Init(1, 1, [], None)
    ensures Runs(s0, xs, s)
    ensures s == State(1, 1, [B], false, ToDb, Select, false, 0, 0, None, true, false,
                       Disk([], [], 0, Off, 0), History([A, B], [A], [], false, false, false))
  {
    hide Runs, Backlog;
    NoBacklog();
    xs, s := [StartReplay], Next(s0, StartReplay);
    RunsOne(s0, StartReplay);
    RunsThen(s0, xs, s, DbOpen);
    xs, s := xs + [DbOpen], Next(s, DbOpen);
    RunsThen(s0, xs, s, Handover);
    xs, s := xs + [Handover], Next(s, Handover);
    RunsThen(s0, xs, s, Push(A));
    xs, s := xs + [Push(A)], Next(s, Push(A));
    RunsThen(s0, xs, s, BufferTake);
    xs, s := xs + [BufferTake], Next(s, BufferTake);
    RunsThen(s0, xs, s, Push(B));
    xs, s := xs + [Push(B)], Next(s, Push(B));
    RunsThen(s0, xs, s, BufferDelivered(true));
    xs, s := xs + [BufferDelivered(true)], Next(s, BufferDelivered(true));
  }

  lemma FlushOne()
    ensures Full(1, 1)
    ensures Flush(Batch(Disk([], [], 0, Off, 0), B, true)) == Disk([Entry(0, B)], [], 1, Asking(0), 0)
    ensures Flush(Disk([Entry(0, B)], [], 1, Asking(0), 0)) == Disk([Entry(0, B)], [], 1, Asking(0), 0)
  {
    var e := Entry(0, B);
    assert [] + [e] == [e] && [e][1..] == [];
    assert WriteBatch([], [e]) == WriteBatch(Insert([], e), []) == [e];
  }

  /** Second leg: B goes to the database, C comes in. */
  lemma LegTwo(s0: State) returns (xs: seq<Action>, s: State)
    requires s0 == State(1, 1, [B], false, ToDb, Select, false, 0, 0, None, true, false,
                         Disk([], [], 0, Off, 0), History([A, B], [A], [], false, false, false))
    ensures Runs(s0, xs, s)
    ensures s == State(1, 1, [C], false, ToDb, Select, false, 1, 1, None, true, false,
                       Disk([Entry(0, B)], [], 1, Asking(0), 0), History([A, B, C], [A], [], false, false, false))
  {
    FlushOne();
    hide Runs, WriteBatch, Insert, Flush, Backlog;
    assert [B][1..] == [];
    xs, s := [BufferSave], Next(s0, BufferSave);
    RunsOne(s0, BufferSave);
    RunsThen(s0, xs, s, Push(C));
    xs, s := xs + [Push(C)], Next(s, Push(C));
  }

  /** Third leg: dbRead is about to send B. */
  lemma LegThree(s0: State) returns (xs: seq<Action>, s: State)
    requires s0 == State(1, 1, [C], false, ToDb, Select, false, 1, 1, None, true, false,
                         Disk([Entry(0, B)], [], 1, Asking(0), 0), History([A, B, C], [A], [], false, false, false))
    ensures Runs(s0, xs, s)
    ensures s == State(1, 1, [C], false, ToDb, Select, false, 0, 1, Some(1), true, false,
                       Disk([Entry(0, B)], [], 1, Sending(0, true, 1, 0, [Entry(0, B)], true, []), 0),
                       History([A, B, C], [A], [], false, false, false))
  {
    FlushOne();
    assert From([Entry(0, B)], 0) == [Entry(0, B)];
    hide Runs, Flush, From, Backlog;
    xs, s := [Handover], Next(s0, Handover);
    RunsOne(s0, Handover);
    RunsThen(s0, xs, s, DbOpen);
    xs, s := xs + [DbOpen], Next(s, DbOpen);
    RunsThen(s0, xs, s, DbAdvance);
    xs, s := xs + [DbAdvance], Next(s, DbAdvance);
  }

  /** Fourth leg: the queue is told to stop, B fails, and bufferRead, which has not
      noticed yet, takes the empty batch for an empty database. */
  lemma LegFour(s0: State) returns (xs: seq<Action>, s: State)
    requires s0 == State(1, 1, [C], false, ToDb, Select, false, 0, 1, Some(1), true, false,
                         Disk([Entry(0, B)], [], 1, Sending(0, true, 1, 0, [Entry(0, B)], true, []), 0),
                         History([A, B, C], [A], [], false, false, false))
    ensures Runs(s0, xs, s)
    ensures s == State(1, 1, [C], false, FromBuffer, Select, false, 0, 0, Some(1), true, true,
                       Disk([Entry(0, B)], [], 1, Off, 1), History([A, B, C], [A], [], true, false, false))
  {
    var e := Entry(0, B);
    assert [e][1..] == [];
    assert Without([e], []) == [e] + Without([], []);
    hide Runs, Without, Backlog;
    xs, s := [Stop], Next(s0, Stop);
    RunsOne(s0, Stop);
    RunsThen(s0, xs, s, DbDelivered(false));
    xs, s := xs + [DbDelivered(false)], Next(s, DbDelivered(false));
    RunsThen(s0, xs, s, DbDelete);
    xs, s := xs + [DbDelete], Next(s, DbDelete);
    RunsThen(s0, xs, s, Handover);
    xs, s := xs + [Handover], Next(s, Handover);
  }

  /** Last leg: bufferRead delivers C. */
  lemma LegFive(s0: State) returns (xs: seq<Action>, s: State)
    requires s0 == State(1, 1, [C], false, FromBuffer, Select, false, 0, 0, Some(1), true, true,
                         Disk([Entry(0, B)], [], 1, Off, 1), History([A, B, C], [A], [], true, false, false))
    ensures Runs(s0, xs, s)
    ensures s.past.accepted == [A, B, C] && s.past.delivered == [A, C] && s.past.overtaken
  {
    assert Backlog(s0.disk)[0] == Entry(0, B);
    hide Runs, Backlog;
    assert [A] + [C] == [A, C];
    xs, s := [BufferTake], Next(s0, BufferTake);
    RunsOne(s0, BufferTake);
    RunsThen(s0, xs, s, BufferDelivered(true));
    xs, s := xs + [BufferDelivered(true)], Next(s, BufferDelivered(true));
  }

  /** A run in which C overtakes B: the delivery function may still succeed after
      it has failed once, because it chooses freely between sending and quitting. */
  lemma ReorderExample() returns (actions: seq<Action>, s: State)
    ensures Runs(Init(1, 1, [], None), actions, s)
    ensures s.past.accepted == [A, B, C] && s.past.delivered == [A, C]
    ensures !(s.past.delivered <= s.past.accepted) && s.past.overtaken
  {
    hide Runs;
    var s0 := Init(1, 1, [], None);
    var xs, s1 := LegOne(s0);
    var ys, s2 := LegTwo(s1);
    RunsConcat(s0, xs, s1, ys, s2);
    var zs, s3 := LegThree(s2);
    RunsConcat(s0, xs + ys, s2, zs, s3);
    var us, s4 := LegFour(s3);
    RunsConcat(s0, xs + ys + zs, s3, us, s4);
    var vs, s5 := LegFive(s4);
    RunsConcat(s0, xs + ys + zs + us, s4, vs, s5);
    actions, s := xs + ys + zs + us + vs, s5;
    assert [A, C][1] != [A, B, C][1];
  }
}
