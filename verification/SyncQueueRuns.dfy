/** What the queue promises over whole runs: conservation, order, a clean stop,
    and the session after it. */
module SyncQueueRuns {
  import opened Bytes
  import opened SyncQueue
  import opened SyncQueueSteps

  /** s' is reached from s by taking the actions in turn. */
  ghost predicate Runs(s: State, actions: seq<Action>, s': State)
    decreases |actions|
  {
    if actions == [] then s' == s
    else Enabled(s, actions[0]) && Runs(Next(s, actions[0]), actions[1..], s')
  }

  lemma {:induction false} RunInv(s: State, actions: seq<Action>, s': State)
    requires Inv(s) && Runs(s, actions, s')
    ensures Inv(s')
    decreases |actions|
  {
    hide Inv, Next, Enabled;
    if actions != [] {
      StepInv(s, actions[0]);
      RunInv(Next(s, actions[0]), actions[1..], s');
    }
  }

  lemma {:induction false} RunsConcat(s: State, xs: seq<Action>, t: State, ys: seq<Action>, u: State)
    requires Runs(s, xs, t) && Runs(t, ys, u)
    ensures Runs(s, xs + ys, u)
    decreases |xs|
  {
    hide Enabled, Next;
    if xs == [] {
      assert xs + ys == ys;
    } else {
      assert (xs + ys)[0] == xs[0] && (xs + ys)[1..] == xs[1..] + ys;
      RunsConcat(Next(s, xs[0]), xs[1..], t, ys, u);
    }
  }

  /** Putting one step in front of a run. */
  lemma RunsFirst(s: State, a: Action, xs: seq<Action>, t: State)
    requires Enabled(s, a) && Runs(Next(s, a), xs, t)
    ensures Runs(s, [a] + xs, t)
  {
    hide Enabled, Next;
    assert ([a] + xs)[1..] == xs;
  }

  lemma RunsNone(s: State)
    ensures Runs(s, [], s)
  {
  }

  /** A database that a session may start on. */
  ghost predicate Startable(db: seq<Entry>, saved: Option<nat>) {
    && Sorted(db)
    && (saved.Some? ==> forall i :: 0 <= i < |db| ==> db[i].ctr < saved.value)
    && (saved.None? ==> db == [])
  }

  lemma StartInv(cap: nat, batchSize: nat, db: seq<Entry>, saved: Option<nat>, actions: seq<Action>, s: State)
    requires Startable(db, saved) && Runs(Init(cap, batchSize, db, saved), actions, s)
    ensures Inv(s)
  {
    hide Runs, Inv;
    InitInv(cap, batchSize, db, saved);
    RunInv(Init(cap, batchSize, db, saved), actions, s);
  }

  /** In every reachable state: nothing is lost, and nothing goes out that was not
      accepted but strays; the order is kept until a step overtakes, which none
      does before the queue is told to stop; there is never a second dbRead. */
  lemma QueueSafety(cap: nat, batchSize: nat, db: seq<Entry>, saved: Option<nat>, actions: seq<Action>, s: State)
    requires Startable(db, saved) && Runs(Init(cap, batchSize, db, saved), actions, s)
    ensures multiset(s.past.accepted) + multiset(s.past.strays) == multiset(s.past.delivered) + multiset(Waiting(s))
    ensures !s.past.overtaken ==> InOrder(s) && s.past.strays == []
    ensures s.past.overtaken ==> s.quit
    ensures !s.past.doubled
  {
    StartInv(cap, batchSize, db, saved, actions, s);
    hide Items, Records, Backlog, Counting, Waiting, Runs;
  }

  /** After a clean stop the database holds exactly what was not delivered, and
      the next session can start on it. */
  lemma CleanStop(cap: nat, batchSize: nat, db: seq<Entry>, saved: Option<nat>, actions: seq<Action>, s: State)
    requires Startable(db, saved) && Runs(Init(cap, batchSize, db, saved), actions, s)
    requires s.br.Stopped? && s.disk.dr == Off
    ensures multiset(s.past.accepted) + multiset(s.past.strays) == multiset(s.past.delivered) + multiset(Items(s.disk.db))
    ensures !s.past.overtaken ==> s.past.accepted == s.past.delivered + Items(s.disk.db)
    ensures s.saved.Some? && Startable(s.disk.db, s.saved)
  {
    StartInv(cap, batchSize, db, saved, actions, s);
    hide Items, Records, Backlog, Counting, Runs, Waiting, Init, Sorted;
    StoppedWaiting(s);
  }

  lemma StoppedWaiting(s: State)
    requires Control(s) && Records(s.disk) && s.br.Stopped? && s.disk.dr == Off
    ensures Waiting(s) == Items(s.disk.db) && Startable(s.disk.db, s.saved)
  {
    hide Items;
    var d := s.disk;
    assert d.db[..d.skip] + d.db[d.skip..] + [] == d.db;
    assert d.db + d.batch == d.db;
  }

  // ----- what a step adds to the history -----

  /** What no step takes back. */
  ghost predicate Later(s: State, s': State) {
    && s'.cap == s.cap && s'.batchSize == s.batchSize
    && (s.saved.Some? ==> s'.saved.Some?)
    && s.past.accepted <= s'.past.accepted
    && s.past.delivered <= s'.past.delivered
    && s.past.strays <= s'.past.strays
    && (s.past.overtaken ==> s'.past.overtaken)
  }

  lemma SaveLater(s: State, req: Request)
    ensures Later(s, Save(s, req)) && Save(s, req).past.overtaken == s.past.overtaken
    ensures Save(s, req).past.accepted == s.past.accepted && Save(s, req).past.delivered == s.past.delivered
    ensures Save(s, req).past.strays == s.past.strays && Save(s, req).saved == s.saved
  {
    hide Flush, Full, Batch;
  }

  lemma BufferStepLater(s: State, a: Action)
    requires Enabled(s, a) && (a.BufferDelivered? || a.BufferSave?)
    ensures Later(s, Next(s, a)) && Next(s, a).past.overtaken == (s.past.overtaken || Overtakes(s, a))
  {
    hide Flush, Open, Delete, Save, Advance, Sent, Backlog;
    match a
    case BufferDelivered(ok) =>
      if !ok {
        SaveLater(s.(mode := ToDb, closed := true, brQuit := true, past := s.past.(failed := true)), s.br.req);
      }
    case BufferSave => SaveLater(s.(buf := s.buf[1..]), s.buf[0]);
  }

  lemma SentLater(s: State)
    requires s.disk.dr.Sending? && s.disk.dr.rem != []
    ensures Later(s, DoSent(s)) && DoSent(s).past.overtaken == (s.past.overtaken || Overtakes(s, DbDelivered(true)))
  {
    hide Sent;
  }

  lemma StrayedLater(s: State)
    requires s.disk.dr.Straying?
    ensures Later(s, DoStrayed(s)) && DoStrayed(s).past.overtaken == (s.past.overtaken || Overtakes(s, DbDelivered(true)))
  {
    hide Strayed;
  }

  lemma DbStepLater(s: State, a: Action)
    requires Enabled(s, a) && a.DbDelivered?
    ensures Later(s, Next(s, a)) && Next(s, a).past.overtaken == (s.past.overtaken || Overtakes(s, a))
  {
    hide DoSent, DoStrayed;
    if a.ok && s.disk.dr.Sending? {
      SentLater(s);
    } else if a.ok {
      StrayedLater(s);
    }
  }

  lemma StepLater(s: State, a: Action)
    requires Enabled(s, a)
    ensures Later(s, Next(s, a)) && Next(s, a).past.overtaken == (s.past.overtaken || Overtakes(s, a))
  {
    if a.BufferDelivered? || a.BufferSave? {
      BufferStepLater(s, a);
    } else if a.DbDelivered? {
      DbStepLater(s, a);
    } else {
      hide Flush, Open, Delete, Advance, Stray;
    }
  }

  lemma {:induction false} RunLater(s: State, actions: seq<Action>, s': State)
    requires Runs(s, actions, s')
    ensures Later(s, s')
    decreases |actions|
  {
    hide Next, Enabled;
    if actions != [] {
      StepLater(s, actions[0]);
      RunLater(Next(s, actions[0]), actions[1..], s');
    }
  }

  // ----- the order is lost exactly by overtaking -----

  /** Some step of the run overtakes. */
  ghost predicate Overtaking(s: State, actions: seq<Action>)
    decreases |actions|
  {
    && actions != [] && Enabled(s, actions[0])
    && (Overtakes(s, actions[0]) || Overtaking(Next(s, actions[0]), actions[1..]))
  }

  lemma {:induction false} RunOvertakes(s: State, actions: seq<Action>, s': State)
    requires Runs(s, actions, s')
    ensures s'.past.overtaken <==> s.past.overtaken || Overtaking(s, actions)
    decreases |actions|
  {
    hide Next, Enabled, Overtakes;
    if actions != [] {
      StepLater(s, actions[0]);
      RunOvertakes(Next(s, actions[0]), actions[1..], s');
    }
  }

  ghost predicate Distinct(rs: seq<Request>) {
    forall i, j :: 0 <= i < j < |rs| ==> rs[i] != rs[j]
  }

  /** The deliveries so far can no longer be the beginning of what was accepted. */
  ghost predicate Broken(h: History) {
    || h.strays != []
    || exists i :: 0 <= i < |h.delivered| && i < |h.accepted| && h.delivered[i] != h.accepted[i]
  }

  lemma BrokenStays(s: State, s': State)
    requires Later(s, s') && Broken(s.past)
    ensures Broken(s'.past)
  {
    if s.past.strays == [] {
      var i :| 0 <= i < |s.past.delivered| && i < |s.past.accepted| && s.past.delivered[i] != s.past.accepted[i];
      assert s'.past.delivered[i] == s.past.delivered[i] && s'.past.accepted[i] == s.past.accepted[i];
    }
  }

  lemma BrokenNotInOrder(s: State)
    requires Flow(s) && Broken(s.past)
    ensures !InOrder(s)
  {
    hide Waiting;
    if s.past.strays != [] {
      assert |multiset(s.past.accepted + s.past.strays)| == |s.past.accepted| + |s.past.strays|;
      assert |multiset(s.past.delivered + Waiting(s))| == |s.past.delivered| + |Waiting(s)|;
    } else {
      var i :| 0 <= i < |s.past.delivered| && i < |s.past.accepted| && s.past.delivered[i] != s.past.accepted[i];
      assert (s.past.delivered + Waiting(s))[i] == s.past.delivered[i];
    }
  }

  /** Delivering x from behind something else. */
  lemma OutOfTurn(h: History, h': History, ahead: seq<Request>, x: Request, rest: seq<Request>)
    requires Distinct(h.accepted) && h.accepted == h.delivered + (ahead + [x] + rest) && ahead != []
    requires h'.accepted == h.accepted && h'.delivered == h.delivered + [x]
    ensures Broken(h')
  {
    var i, j := |h.delivered|, |h.delivered| + |ahead|;
    assert h.accepted[i] == ahead[0] && h.accepted[j] == x;
    assert h'.delivered[i] == x;
  }

  lemma ItemsCount(es: seq<Entry>)
    ensures |Items(es)| == |es|
  {
  }

  lemma OvertakeBreaks(s: State, a: Action)
    requires Inv(s) && !s.past.overtaken && Enabled(s, a) && Overtakes(s, a) && Distinct(s.past.accepted)
    ensures Broken(Next(s, a).past)
  {
    hide Records, Undelivered, Items, Distinct, Control, Counting, Sent, Strayed;
    if a.BufferDelivered? {
      ItemsCount(Backlog(s.disk));
      OutOfTurn(s.past, Next(s, a).past, Items(Backlog(s.disk)), s.br.req, s.buf);
    } else if s.disk.dr.Sending? {
      var d := s.disk;
      hide Backlog;
      SentWaiting(s);
      SkipBound(d);
      ItemsCount(d.db[..d.skip]);
      OutOfTurn(s.past, Next(s, a).past, Items(d.db[..d.skip]), d.dr.rem[0].req,
                Items(Undelivered(DoSent(s).disk) + d.batch) + InFlight(s) + s.buf);
    }
  }

  lemma SkipBound(d: Disk)
    requires Records(d)
    ensures d.skip <= |d.db|
  {
  }

  /** From a state in good order a step leads out of order exactly when it
      overtakes. */
  lemma StepOrderIff(s: State, a: Action)
    requires Inv(s) && !s.past.overtaken && Enabled(s, a) && Distinct(s.past.accepted)
    ensures InOrder(Next(s, a)) <==> !Overtakes(s, a)
  {
    StepInv(s, a);
    StepLater(s, a);
    if Overtakes(s, a) {
      OvertakeBreaks(s, a);
      hide Waiting;
      BrokenNotInOrder(Next(s, a));
    }
  }

  lemma DistinctPrefix(a: seq<Request>, b: seq<Request>)
    requires a <= b && Distinct(b)
    ensures Distinct(a)
  {
    assert forall i :: 0 <= i < |a| ==> a[i] == b[i];
  }

  lemma {:induction false} RunBreaks(s: State, actions: seq<Action>, s': State)
    requires Inv(s) && !s.past.overtaken && Runs(s, actions, s') && Overtaking(s, actions) && Distinct(s'.past.accepted)
    ensures Broken(s'.past)
    decreases |actions|
  {
    hide Next, Enabled, Overtakes, Inv, Broken, Distinct;
    var s1 := Next(s, actions[0]);
    StepInv(s, actions[0]);
    StepLater(s, actions[0]);
    RunLater(s, actions, s');
    RunLater(s1, actions[1..], s');
    DistinctPrefix(s.past.accepted, s'.past.accepted);
    if Overtakes(s, actions[0]) {
      OvertakeBreaks(s, actions[0]);
      BrokenStays(s1, s');
    } else {
      RunBreaks(s1, actions[1..], s');
    }
  }

  lemma InitHistory(cap: nat, batchSize: nat, db: seq<Entry>, saved: Option<nat>)
    ensures var s := Init(cap, batchSize, db, saved);
            !s.past.overtaken && s.past.accepted == Items(db) && s.past.strays == [] && s.saved == saved
  {
  }

  /** With distinct requests a run is in order exactly when none of its steps
      overtakes. */
  lemma OrderIff(cap: nat, batchSize: nat, db: seq<Entry>, saved: Option<nat>, actions: seq<Action>, s: State)
    requires Startable(db, saved) && Runs(Init(cap, batchSize, db, saved), actions, s) && Distinct(s.past.accepted)
    ensures InOrder(s) <==> !Overtaking(Init(cap, batchSize, db, saved), actions)
    ensures Overtaking(Init(cap, batchSize, db, saved), actions) <==> Broken(s.past)
  {
    var s0 := Init(cap, batchSize, db, saved);
    hide Runs, Init, Distinct, Broken, Waiting, Startable, InOrder, Overtaking;
    InitHistory(cap, batchSize, db, saved);
    InitStartable(cap, batchSize, db, saved);
    StartInv(cap, batchSize, db, saved, actions, s);
    RunOvertakes(s0, actions, s);
    if Overtaking(s0, actions) {
      RunBreaks(s0, actions, s);
      BrokenNotInOrder(s);
    } else if Broken(s.past) {
      BrokenNotInOrder(s);
    }
  }

  lemma InitStartable(cap: nat, batchSize: nat, db: seq<Entry>, saved: Option<nat>)
    requires Startable(db, saved)
    ensures Inv(Init(cap, batchSize, db, saved))
  {
    InitInv(cap, batchSize, db, saved);
  }

  /** Where older records first get ahead of dbRead: bufferRead takes an empty
      batch for an empty database although a failed delivery left records. */
  lemma SkipStarts(s: State, a: Action)
    requires Enabled(s, a) && s.disk.skip == 0
    ensures Next(s, a).disk.skip != 0 <==> a.Handover? && s.inBatch == 0 && !s.brQuit && s.disk.db != []
  {
    if a.BufferDelivered? || a.BufferSave? {
      BufferKeepsSkip(s, a);
    } else {
      hide WriteBatch, From, Without, Advance, Sent, Strayed, Stray, Deliver;
    }
  }

  lemma BufferKeepsSkip(s: State, a: Action)
    requires Enabled(s, a) && (a.BufferDelivered? || a.BufferSave?)
    ensures Next(s, a).disk.skip == s.disk.skip
  {
    hide WriteBatch, Full, Deliver;
  }
}
