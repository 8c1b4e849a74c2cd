/** syncDb: a queue of outgoing requests that lives in memory while the network
    keeps up and in the request database while it does not. Two loops run
    concurrently: bufferRead takes requests from the buffer, and dbRead replays
    the database. Every blocking point of either loop is a step boundary here,
    so a run is any interleaving of the steps. */
module SyncQueue {
  import opened Bytes

  datatype Request = Request(key: Key, id: nat)

  /** A database record; the counter is the ordered part of its key. */
  datatype Entry = Entry(ctr: nat, req: Request)

  /** Which of the two channel variables of bufferRead is not nil. */
  datatype Mode = Idle | FromBuffer | ToDb

  datatype BufferLoop = Select | Delivering(req: Request) | Stopped

  /** Where dbRead stands. pos is the counter in its key variable; use says
      whether it asks for batches; n of the cnt promised items are delivered; rem is
      what the iterator still holds and end whether the counter key follows; del
      collects the keys to delete. Straying is what happens past the last record
      when no counter key follows: the loop does not notice and sends req, whatever
      the exhausted iterator gives it. */
  datatype DbLoop =
    | Off
    | Asking(pos: nat)
    | Opening(pos: nat, use: bool, cnt: nat)
    | Reading(pos: nat, use: bool, cnt: nat, n: nat, rem: seq<Entry>, end: bool, del: seq<nat>)
    | Sending(pos: nat, use: bool, cnt: nat, n: nat, rem: seq<Entry>, end: bool, del: seq<nat>)
    | Straying(pos: nat, use: bool, cnt: nat, n: nat, req: Request, del: seq<nat>)
    | Deleting(pos: nat, use: bool, del: seq<nat>)

  /** The database, as the sorted list of its records, the batch of bufferRead
      that has not been written yet, and the position of dbRead. The first skip
      records are older than the position dbRead was started from. */
  datatype Disk = Disk(db: seq<Entry>, batch: seq<Entry>, counter: nat, dr: DbLoop, skip: nat)

  /** What was pushed, what was delivered, what of that came from past the end of
      the database, whether a delivery failed, whether one overtook an older
      request, and whether two dbRead loops met. */
  datatype History = History(accepted: seq<Request>, delivered: seq<Request>, strays: seq<Request>,
                             failed: bool, overtaken: bool, doubled: bool)

  datatype State = State(
    cap: nat, batchSize: nat, buf: seq<Request>, closed: bool,
    mode: Mode, br: BufferLoop, brQuit: bool, inBatch: nat, inDb: nat,
    saved: Option<nat>, replayed: bool, quit: bool,
    disk: Disk, past: History)

  // ----- the database -----

  /** The records an iterator yields after Seek to a counter. */
  function From(db: seq<Entry>, pos: nat): seq<Entry> {
    if db == [] then []
    else if db[0].ctr < pos then From(db[1..], pos)
    else [db[0]] + From(db[1..], pos)
  }

  /** Writing a delete batch. */
  function Without(db: seq<Entry>, del: seq<nat>): seq<Entry> {
    if db == [] then []
    else if db[0].ctr in del then Without(db[1..], del)
    else [db[0]] + Without(db[1..], del)
  }

  /** Putting one record into its place by key order. */
  function Insert(db: seq<Entry>, e: Entry): seq<Entry> {
    if db == [] then [e]
    else if e.ctr < db[0].ctr then [e] + db
    else if e.ctr == db[0].ctr then [e] + db[1..]
    else [db[0]] + Insert(db[1..], e)
  }

  function WriteBatch(db: seq<Entry>, batch: seq<Entry>): seq<Entry>
    decreases |batch|
  {
    if batch == [] then db else WriteBatch(Insert(db, batch[0]), batch[1..])
  }

  function Items(es: seq<Entry>): seq<Request> {
    if es == [] then [] else [es[0].req] + Items(es[1..])
  }

  function Del(dr: DbLoop): seq<nat> {
    if dr.Reading? || dr.Sending? || dr.Straying? || dr.Deleting? then dr.del else []
  }

  // ----- the steps -----

  /** newSyncDb, on a database left by an earlier session. */
  function Init(cap: nat, batchSize: nat, db: seq<Entry>, saved: Option<nat>): State {
    State(cap, batchSize, [], false, Idle, Select, false, 0, 0, saved, false, false,
          Disk(db, [], if saved.Some? then saved.value else 0, Off, 0),
          History(Items(db), [], [], false, false, false))
  }

  /** writeSyncBatch */
  function Flush(d: Disk): Disk {
    d.(db := WriteBatch(d.db, d.batch), batch := [])
  }

  function Batch(d: Disk, req: Request, start: bool): Disk {
    d.(batch := d.batch + [Entry(d.counter, req)], counter := d.counter + 1,
       dr := if start then Asking(d.counter) else d.dr)
  }

  predicate Full(inBatch: nat, batchSize: nat) {
    batchSize > 0 && inBatch % batchSize == 0
  }

  /** The tail of the bufferRead loop: one request goes to the database batch. */
  function Save(s: State, req: Request): State {
    var start := s.inDb == 0 && !s.brQuit;
    var d := Batch(s.disk, req, start);
    s.(br := Select, inDb := s.inDb + 1, inBatch := s.inBatch + 1,
       disk := if Full(s.inBatch + 1, s.batchSize) then Flush(d) else d,
       past := if start && s.disk.dr != Off then s.past.(doubled := true) else s.past)
  }

  function Deliver(h: History, req: Request, over: bool): History {
    h.(delivered := h.delivered + [req], overtaken := h.overtaken || over)
  }

  /** The steps that send something other than the oldest request waiting: a
      request from the buffer while records are waiting, a record while older ones
      are waiting, or something that is no record at all. */
  predicate Overtakes(s: State, a: Action) {
    match a
    case BufferDelivered(ok) => ok && Backlog(s.disk) != []
    case DbDelivered(ok) => ok && (s.disk.dr.Straying? || s.disk.skip != 0)
    case _ => false
  }

  /** The buffer is full after a delivery, so bufferRead switches to the database. */
  function DoDelivered(s: State): State
    requires s.br.Delivering?
  {
    s.(br := Select, past := Deliver(s.past, s.br.req, Overtakes(s, BufferDelivered(true))), mode := if |s.buf| == s.cap then ToDb else s.mode)
  }

  /** The delivery was aborted: save the request and everything in the buffer. */
  function DoFailed(s: State): State
    requires s.br.Delivering?
  {
    Save(s.(mode := ToDb, closed := true, brQuit := true, past := s.past.(failed := true)), s.br.req)
  }

  function DoFinish(s: State): State {
    s.(br := Stopped, disk := Flush(s.disk), saved := Some(s.disk.counter))
  }

  /** dbRead asks for a batch and bufferRead answers. */
  function DoHandover(s: State): State
    requires s.disk.dr.Asking?
  {
    if s.inBatch == 0 && !s.brQuit then
      s.(mode := FromBuffer, inDb := 0, disk := s.disk.(dr := Off, skip := |s.disk.db|))
    else
      s.(saved := Some(s.disk.counter), inBatch := 0,
         disk := Flush(s.disk).(dr := if s.inBatch == 0 then Off
                                      else Opening(s.disk.dr.pos, true, s.inBatch)))
  }

  function Open(d: Disk, end: bool): Disk
    requires d.dr.Opening?
  {
    var rem := From(d.db, d.dr.pos);
    if rem == [] then d.(dr := Asking(0), skip := 0)
    else d.(dr := Reading(d.dr.pos, d.dr.use, d.dr.cnt, 0, rem, end, []))
  }

  /** The head of the reading loop; past the last record the iterator meets the
      counter key. */
  function Advance(dr: DbLoop): DbLoop
    requires dr.Reading?
  {
    if dr.use && dr.n >= dr.cnt then Deleting(dr.pos, dr.use, dr.del)
    else if dr.rem != [] then Sending(dr.rem[0].ctr, dr.use, dr.cnt, dr.n, dr.rem, dr.end, dr.del)
    else Deleting(0, true, dr.del)
  }

  /** The records are used up, no counter key follows, and the loop goes on. */
  predicate PastTheEnd(dr: DbLoop) {
    dr.Reading? && (dr.use ==> dr.n < dr.cnt) && dr.rem == [] && !dr.end
  }

  function Sent(dr: DbLoop): DbLoop
    requires dr.Sending? && dr.rem != []
  {
    Reading(dr.pos, dr.use, dr.cnt, dr.n + 1, dr.rem[1..], dr.end, dr.del + [dr.pos])
  }

  function DoSent(s: State): State
    requires s.disk.dr.Sending? && s.disk.dr.rem != []
  {
    s.(disk := s.disk.(dr := Sent(s.disk.dr)),
       past := Deliver(s.past, s.disk.dr.rem[0].req, Overtakes(s, DbDelivered(true))))
  }

  /** Past the end the key variable keeps the last key, so the loop goes on as if
      that record had been sent once more; it is in the delete batch already. */
  function Stray(dr: DbLoop, req: Request): DbLoop
    requires dr.Reading?
  {
    Straying(dr.pos, dr.use, dr.cnt, dr.n, req, dr.del)
  }

  function Strayed(dr: DbLoop): DbLoop
    requires dr.Straying?
  {
    Reading(dr.pos, dr.use, dr.cnt, dr.n + 1, [], false, dr.del)
  }

  function DoStrayed(s: State): State
    requires s.disk.dr.Straying?
  {
    var req := s.disk.dr.req;
    s.(disk := s.disk.(dr := Strayed(s.disk.dr)),
       past := Deliver(s.past, req, Overtakes(s, DbDelivered(true))).(strays := s.past.strays + [req]))
  }

  function DoAborted(s: State): State
    requires s.disk.dr.Sending? || s.disk.dr.Straying?
  {
    var dr := s.disk.dr;
    s.(disk := s.disk.(dr := Deleting(dr.pos, dr.use, dr.del)), past := s.past.(failed := true))
  }

  function Delete(d: Disk): Disk
    requires d.dr.Deleting?
  {
    d.(db := Without(d.db, d.dr.del), skip := if d.dr.pos == 0 then 0 else d.skip,
       dr := if d.dr.use then Asking(d.dr.pos) else Opening(d.dr.pos, false, 0))
  }

  datatype Action =
    | Push(req: Request)
    | Stop
    | StartReplay
    | BufferTake
    | BufferDelivered(ok: bool)
    | BufferSave
    | BufferFinish
    | BufferQuit
    | Handover
    | DbQuit
    | DbOpen
    | DbAdvance
    | DbStray(req: Request)
    | DbDelivered(ok: bool)
    | DbDelete

  predicate Enabled(s: State, a: Action) {
    match a
    case Push(_) => !s.quit && !s.closed && |s.buf| < s.cap
    case Stop => !s.quit
    case StartReplay => !s.replayed
    case BufferTake => s.br.Select? && s.mode == FromBuffer && s.buf != []
    case BufferDelivered(ok) => s.br.Delivering? && (ok || s.quit)
    case BufferSave => s.br.Select? && s.mode == ToDb && s.buf != []
    case BufferFinish => s.br.Select? && s.mode == ToDb && s.closed && s.buf == []
    case BufferQuit => s.br.Select? && s.quit && !s.brQuit
    case Handover => s.br.Select? && s.disk.dr.Asking?
    case DbQuit => s.disk.dr.Asking? && s.quit
    case DbOpen => s.disk.dr.Opening?
    case DbAdvance => s.disk.dr.Reading? && !PastTheEnd(s.disk.dr)
    case DbStray(_) => PastTheEnd(s.disk.dr)
    case DbDelivered(ok) => ((s.disk.dr.Sending? && s.disk.dr.rem != []) || s.disk.dr.Straying?) && (ok || s.quit)
    case DbDelete => s.disk.dr.Deleting?
  }

  function Next(s: State, a: Action): State
    requires Enabled(s, a)
  {
    match a
    case Push(req) => s.(buf := s.buf + [req], past := s.past.(accepted := s.past.accepted + [req]))
    case Stop => s.(quit := true)
    case StartReplay =>
      s.(replayed := true, disk := s.disk.(dr := Opening(0, false, 0)),
         past := if s.disk.dr != Off then s.past.(doubled := true) else s.past)
    case BufferTake => s.(br := Delivering(s.buf[0]), buf := s.buf[1..])
    case BufferDelivered(ok) => if ok then DoDelivered(s) else DoFailed(s)
    case BufferSave => Save(s.(buf := s.buf[1..]), s.buf[0])
    case BufferFinish => DoFinish(s)
    case BufferQuit => s.(mode := ToDb, closed := true, brQuit := true)
    case Handover => DoHandover(s)
    case DbQuit => s.(disk := s.disk.(dr := Off))
    case DbOpen => s.(disk := Open(s.disk, s.saved.Some?))
    case DbAdvance => s.(disk := s.disk.(dr := Advance(s.disk.dr)))
    case DbStray(req) => s.(disk := s.disk.(dr := Stray(s.disk.dr, req)))
    case DbDelivered(ok) => if !ok then DoAborted(s) else if s.disk.dr.Sending? then DoSent(s) else DoStrayed(s)
    case DbDelete => s.(disk := Delete(s.disk))
  }

  // ----- facts about the sorted database -----

  predicate Sorted(es: seq<Entry>) {
    forall i, j :: 0 <= i < j < |es| ==> es[i].ctr < es[j].ctr
  }

  lemma {:induction false} InsertAppends(db: seq<Entry>, e: Entry)
    requires forall i :: 0 <= i < |db| ==> db[i].ctr < e.ctr
    ensures Insert(db, e) == db + [e]
  {
    if db != [] {
      InsertAppends(db[1..], e);
      assert db == [db[0]] + db[1..];
    }
  }

  /** Because the counter only grows, a write batch goes to the end. */
  lemma {:induction false} WriteBatchAppends(db: seq<Entry>, batch: seq<Entry>)
    requires Sorted(db + batch)
    ensures WriteBatch(db, batch) == db + batch
    decreases |batch|
  {
    if batch == [] {
      assert db + batch == db;
    } else {
      var all := db + batch;
      forall i | 0 <= i < |db|
        ensures db[i].ctr < batch[0].ctr
      {
        assert all[i] == db[i] && all[|db|] == batch[0];
      }
      InsertAppends(db, batch[0]);
      assert db + [batch[0]] + batch[1..] == all;
      WriteBatchAppends(db + [batch[0]], batch[1..]);
    }
  }

  lemma {:induction false} FromSplits(db: seq<Entry>, pos: nat, k: nat)
    requires k <= |db|
    requires forall i :: 0 <= i < k ==> db[i].ctr < pos
    requires forall i :: k <= i < |db| ==> db[i].ctr >= pos
    ensures From(db, pos) == db[k..]
  {
    if db != [] {
      if k > 0 {
        FromSplits(db[1..], pos, k - 1);
        assert db[1..][k - 1..] == db[k..];
      } else {
        FromSplits(db[1..], pos, 0);
        assert db == [db[0]] + db[1..];
      }
    }
  }

  lemma {:induction false} WithoutRange(db: seq<Entry>, del: seq<nat>, k: nat, m: nat)
    requires k <= m <= |db|
    requires forall i :: 0 <= i < k ==> db[i].ctr !in del
    requires forall i :: k <= i < m ==> db[i].ctr in del
    requires forall i :: m <= i < |db| ==> db[i].ctr !in del
    ensures Without(db, del) == db[..k] + db[m..]
  {
    if db != [] {
      var t := db[1..];
      if k > 0 {
        WithoutRange(t, del, k - 1, m - 1);
        assert [db[0]] + (t[..k - 1] + t[m - 1..]) == db[..k] + db[m..];
      } else if m > 0 {
        WithoutRange(t, del, 0, m - 1);
        assert t[..0] + t[m - 1..] == db[..0] + db[m..];
      } else {
        WithoutRange(t, del, 0, 0);
        assert [db[0]] + (t[..0] + t[0..]) == db[..0] + db[0..];
      }
    }
  }

  lemma {:induction false} ItemsConcat(a: seq<Entry>, b: seq<Entry>)
    ensures Items(a + b) == Items(a) + Items(b)
  {
    if a == [] {
      assert a + b == b;
    } else {
      ItemsConcat(a[1..], b);
      assert (a + b)[1..] == a[1..] + b;
    }
  }

  lemma ItemsSnoc(es: seq<Entry>, e: Entry)
    ensures Items(es + [e]) == Items(es) + [e.req]
  {
    ItemsConcat(es, [e]);
  }

  lemma SliceAppend(a: seq<Entry>, b: seq<Entry>, k: nat)
    requires k <= |a|
    ensures (a + b)[k..] == a[k..] + b && (a + b)[..k] == a[..k]
  {
  }

  lemma ConcatAssoc(a: seq<Entry>, b: seq<Entry>, c: seq<Entry>)
    ensures a + (b + c) == a + b + c && a + b + [] == a + b
  {
  }

  // ----- the invariant -----

  /** The records of the database that are not waiting for deletion. */
  function Undelivered(d: Disk): seq<Entry> {
    if d.skip + |Del(d.dr)| <= |d.db| then d.db[d.skip + |Del(d.dr)|..] else []
  }

  /** Every record not yet delivered, in the order it will go out. */
  function Backlog(d: Disk): seq<Entry> {
    (if d.skip <= |d.db| then d.db[..d.skip] else []) + Undelivered(d) + d.batch
  }

  function InFlight(s: State): seq<Request> {
    if s.br.Delivering? then [s.br.req] else []
  }

  /** Everything accepted and not yet delivered. */
  function Waiting(s: State): seq<Request> {
    Items(Backlog(s.disk)) + InFlight(s) + s.buf
  }

  /** Where the iterator of dbRead will start. */
  ghost predicate PosOk(d: Disk, pos: nat) {
    && d.skip <= |d.db| && pos <= d.counter
    && (pos != 0 ==> forall i :: 0 <= i < d.skip ==> d.db[i].ctr < pos)
    && (pos == 0 && (d.dr.Asking? || d.dr.Opening?) ==> d.skip == 0)
    && (forall i :: 0 <= i < |Undelivered(d)| ==> Undelivered(d)[i].ctr >= pos)
    && (forall i :: 0 <= i < |d.batch| ==> d.batch[i].ctr >= pos)
  }

  ghost predicate Ordered(d: Disk) {
    && Sorted(d.db + d.batch)
    && (forall i :: 0 <= i < |d.db| ==> d.db[i].ctr < d.counter)
    && (forall i :: 0 <= i < |d.batch| ==> d.batch[i].ctr < d.counter)
  }

  ghost predicate Reader(d: Disk) {
    && d.skip + |Del(d.dr)| <= |d.db|
    && (forall i :: 0 <= i < |Del(d.dr)| ==> Del(d.dr)[i] == d.db[d.skip + i].ctr)
    && (d.dr != Off ==> PosOk(d, d.dr.pos))
    && (d.dr.Reading? || d.dr.Sending? ==> d.dr.rem <= Undelivered(d))
    && (d.dr.Sending? ==> d.dr.rem != [] && d.dr.rem[0].ctr == d.dr.pos && (d.dr.use ==> d.dr.n < d.dr.cnt))
  }

  ghost predicate Records(d: Disk) {
    Ordered(d) && Reader(d)
  }

  /** At most one dbRead runs, and which loop may be where. */
  predicate Control(s: State) {
    && !s.past.doubled && s.closed == s.brQuit
    && (s.brQuit ==> s.quit && s.mode == ToDb && !s.br.Delivering?)
    && (s.br.Delivering? ==> s.mode == FromBuffer)
    && (s.br.Stopped? ==> s.brQuit && s.buf == [] && s.disk.batch == [] && s.saved == Some(s.disk.counter))
    && (s.mode != ToDb || (!s.brQuit && s.inDb == 0) ==> s.disk.batch == [] && s.inBatch == 0 && s.inDb == 0)
    && (s.mode == FromBuffer || (s.mode == ToDb && !s.brQuit && s.inDb == 0)
        ==> s.disk.dr == Off && s.disk.skip == |s.disk.db|)
    && (!s.replayed ==> s.disk.dr == Off && s.disk.skip == 0 && (s.mode == Idle || s.brQuit))
    && |s.disk.batch| <= s.inBatch
    && (s.past.failed ==> s.quit) && (s.past.overtaken ==> s.quit) && (s.disk.skip != 0 ==> s.past.failed)
    && (!s.disk.dr.Off? && !InUse(s.disk.dr) ==> s.disk.skip == 0)
  }

  predicate InUse(dr: DbLoop) {
    dr.Asking? || (!dr.Off? && dr.use)
  }

  /** What dbRead has been promised and has not delivered yet. */
  function Promise(dr: DbLoop): int {
    if dr.Opening? then dr.cnt else if dr.Reading? || dr.Sending? then dr.cnt - dr.n else 0
  }

  predicate Running(s: State) {
    !s.past.failed && !s.brQuit
  }

  /** Until something fails, dbRead has asked for exactly what the database
      holds, so an empty batch means an empty database. */
  predicate Counting(s: State) {
    var d, dr := s.disk, s.disk.dr;
    && (s.mode == FromBuffer || (s.mode == ToDb && s.inDb == 0) ==> d.db == [])
    && (InUse(dr) ==> |Undelivered(d)| + |d.batch| == Promise(dr) + s.inBatch)
    && ((dr.Reading? || dr.Sending?) && dr.use ==> |dr.rem| >= dr.cnt - dr.n >= 0)
    && ((dr.Reading? || dr.Sending?) && !dr.use ==> dr.rem == Undelivered(d) && dr.end)
    && !dr.Straying?
    && (s.mode == Idle && d.db != [] ==> s.saved.Some?)
    && (!dr.Off? && !InUse(dr) ==> s.mode == Idle)
  }

  /** Everything delivered and everything waiting, in this order, is what was
      accepted. */
  ghost predicate InOrder(s: State) {
    s.past.accepted == s.past.delivered + Waiting(s)
  }

  /** Nothing is lost, nothing is added but strays, and nothing is reordered until
      a step overtakes. */
  ghost predicate Flow(s: State) {
    && multiset(s.past.accepted + s.past.strays) == multiset(s.past.delivered + Waiting(s))
    && (!s.past.overtaken ==> InOrder(s) && s.past.strays == [])
  }

  ghost predicate Inv(s: State) {
    Control(s) && Records(s.disk) && (Running(s) ==> Counting(s)) && Flow(s)
  }

  lemma InitDisk(db: seq<Entry>, counter: nat)
    requires Sorted(db) && forall i :: 0 <= i < |db| ==> db[i].ctr < counter
    ensures Records(Disk(db, [], counter, Off, 0)) && Backlog(Disk(db, [], counter, Off, 0)) == db
  {
    var d := Disk(db, [], counter, Off, 0);
    assert db + d.batch == db && Undelivered(d) == db && Backlog(d) == db;
  }

  /** A session starts in good order on what an earlier session saved. */
  lemma InitInv(cap: nat, batchSize: nat, db: seq<Entry>, saved: Option<nat>)
    requires Sorted(db)
    requires saved.Some? ==> forall i :: 0 <= i < |db| ==> db[i].ctr < saved.value
    requires saved.None? ==> db == []
    ensures Inv(Init(cap, batchSize, db, saved))
  {
    hide Items, Records, Backlog, Undelivered, Sorted;
    var s := Init(cap, batchSize, db, saved);
    InitDisk(db, s.disk.counter);
    assert Waiting(s) == Items(db) && s.past.delivered + Waiting(s) == s.past.accepted;
    assert s.past.accepted + s.past.strays == s.past.accepted;
  }

  // ----- what the steps do to the disk -----

  /** A write batch moves records from the batch to the end of the database. */
  lemma FlushParts(d: Disk)
    requires Records(d)
    ensures Flush(d).db == d.db + d.batch
    ensures Undelivered(Flush(d)) == Undelivered(d) + d.batch
    ensures Backlog(Flush(d)) == Backlog(d)
  {
    hide WriteBatch, PosOk, Sorted;
    WriteBatchAppends(d.db, d.batch);
    SliceAppend(d.db, d.batch, d.skip);
    SliceAppend(d.db, d.batch, d.skip + |Del(d.dr)|);
    ConcatAssoc(d.db[..d.skip], Undelivered(d), d.batch);
    ConcatAssoc(d.db[..d.skip], Undelivered(d) + d.batch, []);
  }

  lemma FlushRecords(d: Disk)
    requires Records(d)
    ensures Records(Flush(d))
  {
    FlushParts(d);
    FlushOrdered(d);
    FlushEmpties(d);
    if d.dr != Off {
      FlushPos(d);
    }
    hide Flush, Backlog, PosOk, Ordered, Undelivered;
  }

  lemma FlushOrdered(d: Disk)
    requires Records(d)
    ensures Ordered(Flush(d))
  {
    FlushParts(d);
    hide WriteBatch, Backlog, Undelivered, Sorted, PosOk;
    var d' := Flush(d);
    assert d'.db + d'.batch == d.db + d.batch;
  }

  lemma FlushPos(d: Disk)
    requires Records(d) && d.dr != Off
    ensures PosOk(Flush(d), d.dr.pos)
  {
    FlushParts(d);
    FlushEmpties(d);
    NotBelowConcat(Undelivered(d), d.batch, d.dr.pos);
    hide Flush, Backlog, Ordered, Undelivered;
  }

  lemma NotBelowConcat(a: seq<Entry>, b: seq<Entry>, pos: nat)
    requires forall i :: 0 <= i < |a| ==> a[i].ctr >= pos
    requires forall i :: 0 <= i < |b| ==> b[i].ctr >= pos
    ensures forall i :: 0 <= i < |a + b| ==> (a + b)[i].ctr >= pos
  {
  }

  lemma BatchOrdered(d: Disk, req: Request, start: bool)
    requires Ordered(d)
    ensures Ordered(Batch(d, req, start))
  {
    var d', e := Batch(d, req, start), Entry(d.counter, req);
    assert d'.db + d'.batch == (d.db + d.batch) + [e];
    assert forall i :: 0 <= i < |d.db + d.batch| ==> (d.db + d.batch)[i].ctr < d.counter;
  }

  /** bufferRead may start dbRead only when none is running. */
  predicate MayStart(d: Disk) {
    d.dr == Off && d.skip == |d.db| && d.batch == []
  }

  lemma BatchReader(d: Disk, req: Request, start: bool)
    requires Records(d) && (start ==> MayStart(d))
    ensures Reader(Batch(d, req, start))
  {
    hide Sorted, PosOk;
    assert Undelivered(Batch(d, req, start)) == Undelivered(d);
    if start {
      StartPos(d, req);
    } else if d.dr != Off {
      KeepPos(d, req);
    }
  }

  lemma StartPos(d: Disk, req: Request)
    requires Records(d) && MayStart(d)
    ensures PosOk(Batch(d, req, true), d.counter)
  {
    hide Sorted;
    assert |d.db| > 0 ==> d.db[0].ctr < d.counter;
  }

  lemma KeepPos(d: Disk, req: Request)
    requires d.dr != Off && PosOk(d, d.dr.pos)
    ensures PosOk(Batch(d, req, false), d.dr.pos)
  {
    assert Undelivered(Batch(d, req, false)) == Undelivered(d);
  }

  lemma BatchBacklog(d: Disk, req: Request, start: bool)
    requires Records(d) && (start ==> MayStart(d))
    ensures Backlog(Batch(d, req, start)) == Backlog(d) + [Entry(d.counter, req)]
    ensures Undelivered(Batch(d, req, start)) == Undelivered(d)
  {
    hide PosOk, Sorted;
    ConcatAssoc(d.db[..d.skip] + Undelivered(d), d.batch, [Entry(d.counter, req)]);
  }

  lemma SaveDisk(s: State, req: Request)
    requires Records(s.disk) && (s.inDb == 0 && !s.brQuit ==> MayStart(s.disk))
    ensures var d, d' := s.disk, Save(s, req).disk;
            && Records(d') && Items(Backlog(d')) == Items(Backlog(d)) + [req]
            && |Undelivered(d')| + |d'.batch| == |Undelivered(d)| + |d.batch| + 1
            && Undelivered(d) <= Undelivered(d')
  {
    hide Backlog, Ordered, Reader, Flush, Items, Full, Undelivered;
    var d, start := s.disk, s.inDb == 0 && !s.brQuit;
    var d1 := Batch(d, req, start);
    BatchOrdered(d, req, start);
    BatchReader(d, req, start);
    BatchBacklog(d, req, start);
    FlushRecords(d1);
    FlushParts(d1);
    FlushEmpties(d1);
    ItemsSnoc(Backlog(d), Entry(d.counter, req));
  }

  lemma FlushEmpties(d: Disk)
    ensures Flush(d).batch == [] && Flush(d).dr == d.dr && Flush(d).skip == d.skip && Flush(d).counter == d.counter
  {
  }

  lemma OffRecords(d: Disk)
    requires Records(d) && d.dr.Asking?
    ensures Records(d.(dr := Off)) && Undelivered(d.(dr := Off)) == Undelivered(d)
    ensures Backlog(d.(dr := Off)) == Backlog(d)
  {
    hide Sorted, PosOk;
  }

  lemma SkipAll(d: Disk)
    requires Records(d) && d.dr.Asking?
    ensures Records(d.(dr := Off, skip := |d.db|)) && Backlog(d.(dr := Off, skip := |d.db|)) == Backlog(d)
    ensures d.skip <= |d.db| && |Undelivered(d)| == |d.db| - d.skip
  {
    hide Sorted, PosOk;
    assert d.db[..d.skip] + d.db[d.skip..] == d.db;
    assert d.db[..|d.db|] + d.db[|d.db|..] == d.db;
  }

  lemma OpeningRecords(d: Disk, use: bool, cnt: nat)
    requires Records(d) && d.dr.Asking?
    ensures var d' := d.(dr := Opening(d.dr.pos, use, cnt));
            Records(d') && Undelivered(d') == Undelivered(d) && Backlog(d') == Backlog(d)
  {
    hide Sorted;
    var d' := d.(dr := Opening(d.dr.pos, use, cnt));
    assert Undelivered(d') == Undelivered(d);
    assert PosOk(d', d.dr.pos);
  }

  /** Seek finds exactly what has not been delivered. */
  lemma OpenRecords(d: Disk, end: bool)
    requires Records(d) && d.dr.Opening?
    ensures From(d.db, d.dr.pos) == Undelivered(d)
    ensures Records(Open(d, end)) && Backlog(Open(d, end)) == Backlog(d)
    ensures From(d.db, d.dr.pos) != [] ==> Undelivered(Open(d, end)) == Undelivered(d)
    ensures From(d.db, d.dr.pos) == [] ==> Undelivered(Open(d, end)) == d.db
  {
    hide Sorted, From;
    SeekRecords(d);
    assert d.db[..d.skip] + d.db[d.skip..] == d.db;
    assert d.db[..0] + d.db[0..] == d.db;
  }

  lemma SeekRecords(d: Disk)
    requires Records(d) && d.dr.Opening?
    ensures From(d.db, d.dr.pos) == Undelivered(d) == d.db[d.skip..]
  {
    hide Sorted, From;
    forall i | d.skip <= i < |d.db|
      ensures d.db[i].ctr >= d.dr.pos
    {
      assert Undelivered(d)[i - d.skip] == d.db[i];
    }
    FromSplits(d.db, d.dr.pos, d.skip);
  }

  lemma SortedTail(d: Disk, k: nat)
    requires Ordered(d) && k < |d.db|
    ensures forall i :: 0 <= i < k ==> d.db[i].ctr < d.db[k].ctr
    ensures forall i :: k <= i < |d.db| ==> d.db[k].ctr <= d.db[i].ctr
    ensures forall i :: 0 <= i < |d.batch| ==> d.db[k].ctr < d.batch[i].ctr
  {
    var all := d.db + d.batch;
    assert all[k] == d.db[k];
    forall i | 0 <= i < |d.batch|
      ensures d.db[k].ctr < d.batch[i].ctr
    {
      assert all[|d.db| + i] == d.batch[i];
    }
    forall i | 0 <= i < k
      ensures d.db[i].ctr < d.db[k].ctr
    {
      assert all[i] == d.db[i];
    }
    forall i | k < i < |d.db|
      ensures d.db[k].ctr < d.db[i].ctr
    {
      assert all[i] == d.db[i];
    }
  }

  lemma AdvanceRecords(d: Disk)
    requires Records(d) && d.dr.Reading?
    ensures var d' := d.(dr := Advance(d.dr));
            Records(d') && Undelivered(d') == Undelivered(d) && Backlog(d') == Backlog(d)
  {
    AdvancePos(d);
    hide Sorted, PosOk;
  }

  lemma AdvancePos(d: Disk)
    requires Records(d) && d.dr.Reading?
    ensures var d' := d.(dr := Advance(d.dr)); Undelivered(d') == Undelivered(d) && PosOk(d', d'.dr.pos)
  {
    hide Sorted;
    var d' := d.(dr := Advance(d.dr));
    assert Undelivered(d') == Undelivered(d);
    if d.dr.rem != [] {
      var k := d.skip + |d.dr.del|;
      assert Undelivered(d)[0] == d.dr.rem[0] == d.db[k];
      SortedTail(d, k);
      hide Ordered;
      assert forall i :: 0 <= i < |Undelivered(d)| ==> Undelivered(d)[i] == d.db[k + i];
    }
  }

  /** The record that dbRead is sending is the oldest it still has. */
  lemma SentRecords(d: Disk)
    requires Records(d) && d.dr.Sending?
    ensures d.dr.rem != [] && Undelivered(d) != [] && d.dr.rem[0] == Undelivered(d)[0]
    ensures d.dr.use ==> d.dr.n < d.dr.cnt
    ensures var d' := d.(dr := Sent(d.dr));
            Reader(d') && Undelivered(d') == Undelivered(d)[1..]
  {
    hide Sorted;
    var d' := d.(dr := Sent(d.dr));
    var k := d.skip + |d.dr.del|;
    assert Undelivered(d)[0] == d.dr.rem[0] == d.db[k];
    assert Undelivered(d') == Undelivered(d)[1..];
    assert PosOk(d', d.dr.pos);
  }

  lemma AbortedRecords(d: Disk)
    requires Records(d) && (d.dr.Sending? || d.dr.Straying?)
    ensures var d' := d.(dr := Deleting(d.dr.pos, d.dr.use, d.dr.del));
            Records(d') && Undelivered(d') == Undelivered(d) && Backlog(d') == Backlog(d)
  {
    hide Sorted;
    var d' := d.(dr := Deleting(d.dr.pos, d.dr.use, d.dr.del));
    assert Undelivered(d') == Undelivered(d);
    assert PosOk(d', d.dr.pos);
  }

  /** Straying changes nothing on disk. */
  lemma StrayRecords(d: Disk, req: Request)
    requires Records(d) && d.dr.Reading?
    ensures var d' := d.(dr := Stray(d.dr, req));
            Records(d') && Undelivered(d') == Undelivered(d) && Backlog(d') == Backlog(d)
  {
    hide Sorted;
    var d' := d.(dr := Stray(d.dr, req));
    assert Undelivered(d') == Undelivered(d);
    assert PosOk(d', d.dr.pos);
  }

  lemma StrayedRecords(d: Disk)
    requires Records(d) && d.dr.Straying?
    ensures var d' := d.(dr := Strayed(d.dr));
            Records(d') && Undelivered(d') == Undelivered(d) && Backlog(d') == Backlog(d)
  {
    hide Sorted;
    var d' := d.(dr := Strayed(d.dr));
    assert Undelivered(d') == Undelivered(d);
    assert PosOk(d', d.dr.pos);
  }

  lemma SortedCut(db: seq<Entry>, batch: seq<Entry>, k: nat, m: nat)
    requires Sorted(db + batch) && k <= m <= |db|
    ensures Sorted(db[..k] + db[m..] + batch)
  {
    var all, cut := db + batch, db[..k] + db[m..] + batch;
    forall i, j | 0 <= i < j < |cut|
      ensures cut[i].ctr < cut[j].ctr
    {
      var i', j' := if i < k then i else i + (m - k), if j < k then j else j + (m - k);
      assert cut[i] == all[i'] && cut[j] == all[j'];
    }
  }

  lemma DeletedDb(d: Disk)
    requires Records(d) && d.dr.Deleting?
    ensures Without(d.db, d.dr.del) == d.db[..d.skip] + Undelivered(d)
  {
    hide Without, PosOk, Sorted;
    var k, del := d.skip, d.dr.del;
    forall i | 0 <= i < |d.db|
      ensures d.db[i].ctr in del <==> k <= i < k + |del|
    {
      SortedTail(d, i);
      if k <= i < k + |del| {
        assert del[i - k] == d.db[i].ctr;
      }
      forall j | 0 <= j < |del| && k + j != i
        ensures del[j] != d.db[i].ctr
      {
        assert del[j] == d.db[k + j].ctr;
        SortedTail(d, k + j);
      }
    }
    WithoutRange(d.db, del, k, k + |del|);
  }

  lemma DeleteRecords(d: Disk)
    requires Records(d) && d.dr.Deleting?
    ensures Records(Delete(d)) && Backlog(Delete(d)) == Backlog(d)
    ensures d.skip == 0 ==> Undelivered(Delete(d)) == Undelivered(d)
    ensures d.skip == 0 ==> Delete(d).db == Undelivered(d)
  {
    DeletedParts(d);
    DeletedOrder(d);
    DeletedPos(d);
    hide Without, Sorted, PosOk, Ordered;
    assert Undelivered(d) + [] == Undelivered(d);
  }

  lemma DeletedParts(d: Disk)
    requires Records(d) && d.dr.Deleting?
    ensures var d', u := Delete(d), Undelivered(d);
            && d.skip <= |d.db| && d'.db == d.db[..d.skip] + u && d'.batch == d.batch && d'.counter == d.counter
            && Undelivered(d') == (if d.dr.pos == 0 then d'.db else u)
            && Backlog(d') == Backlog(d)
  {
    DeletedDb(d);
    DeleteFields(d);
    ReaderFits(d);
    BacklogParts(d);
    hide Delete, Ordered, Reader, Backlog, Undelivered;
    Halves(d.db[..d.skip], Undelivered(d));
    BacklogParts(Delete(d));
  }

  lemma DeleteFields(d: Disk)
    requires d.dr.Deleting?
    ensures var d' := Delete(d);
            && d'.db == Without(d.db, d.dr.del) && d'.batch == d.batch && d'.counter == d.counter
            && d'.skip == (if d.dr.pos == 0 then 0 else d.skip) && Del(d'.dr) == []
  {
    hide Without;
  }

  lemma ReaderFits(d: Disk)
    requires Reader(d)
    ensures d.skip + |Del(d.dr)| <= |d.db|
  {
  }

  lemma BacklogParts(d: Disk)
    requires d.skip + |Del(d.dr)| <= |d.db|
    ensures Undelivered(d) == d.db[d.skip + |Del(d.dr)|..]
    ensures Backlog(d) == d.db[..d.skip] + Undelivered(d) + d.batch
  {
  }

  lemma Halves(a: seq<Entry>, b: seq<Entry>)
    ensures (a + b)[..|a|] == a && (a + b)[|a|..] == b
    ensures (a + b)[..0] + (a + b)[0..] == a + b && (a + b)[0..] == a + b
  {
  }

  lemma DeletedOrder(d: Disk)
    requires Records(d) && d.dr.Deleting?
    ensures Ordered(Delete(d))
  {
    DeletedDb(d);
    DeleteFields(d);
    ReaderFits(d);
    BacklogParts(d);
    hide Delete, Reader, Undelivered, Sorted;
    SortedCut(d.db, d.batch, d.skip, d.skip + |d.dr.del|);
    CutBelow(d.db, d.skip, d.skip + |d.dr.del|, d.counter);
  }

  lemma CutBelow(db: seq<Entry>, k: nat, m: nat, bound: nat)
    requires k <= m <= |db| && forall i :: 0 <= i < |db| ==> db[i].ctr < bound
    ensures forall i :: 0 <= i < |db[..k] + db[m..]| ==> (db[..k] + db[m..])[i].ctr < bound
  {
  }

  lemma DeletedPos(d: Disk)
    requires Records(d) && d.dr.Deleting?
    ensures PosOk(Delete(d), d.dr.pos) && Delete(d).skip <= |Delete(d).db|
  {
    DeletedParts(d);
    hide Without, Sorted, Ordered, Backlog;
  }
}
