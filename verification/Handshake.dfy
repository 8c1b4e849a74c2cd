/** The sync handshake between two peers, for one direction: the sender
    announces keys in unsyncedKeys messages, the receiver answers each with a
    deliveryRequest that lists the keys it lacks, and the sender queues those
    chunks for delivery and may then announce the next batch. */
module Handshake {
  import opened Bytes

  /** Three priority queues and the history channel. */
  const LANES: nat := 4

  datatype Req = Req(key: Key, lane: nat)

  /** The verdict of the receiver on one announced key. */
  datatype Check = Check(req: Req, found: bool)

  /** HandleUnsyncedKeysMsg in progress. */
  datatype Filter = Filter(rest: seq<Req>, missing: seq<Req>)

  datatype State = State(
    /** The sender loop holds no deliveryRequest channel: it may send. */
    ready: bool,
    batch: seq<Req>,
    lanes: seq<seq<Req>>,
    toB: seq<seq<Req>>,
    filtering: Option<Filter>,
    toA: seq<seq<Req>>,
    /** HandleDeliveryRequestMsg in progress. */
    pushing: Option<seq<Req>>,
    /** The deliveryRequest channel, of capacity one. */
    token: bool,
    /** What the receiver has stored. */
    has: set<Key>,
    log: Log)

  /** What has happened so far. */
  datatype Log = Log(
    added: seq<seq<Req>>,
    announced: seq<Req>,
    checked: seq<Check>,
    pushed: seq<Req>,
    dropped: nat)

  datatype Action =
    | Add(lane: nat, key: Key)   // addKey, or a history item
    | Take(lane: nat)            // the loop moves an item into the batch
    | Send                       // unsyncedKeys
    | Receive                    // the receiver starts on a message
    | Look                       // one round of its loop
    | Answer                     // deliveryRequest
    | Store(has: set<Key>)       // the receiver's store changes meanwhile
    | Accept                     // the sender starts on the answer
    | Push                       // one round of its loop
    | Wake                       // sendUnsyncedKeys
    | Resume                     // the loop reads the wake-up

  const INIT := State(true, [], [[], [], [], []], [], None, [], None, false, {}, Log([[], [], [], []], [], [], [], 0))

  predicate Enabled(s: State, a: Action) {
    match a
    case Add(l, _) => l < LANES && |s.lanes| == |s.log.added| == LANES
    case Take(l) => l < LANES && |s.lanes| == LANES && s.lanes[l] != []
    case Send => s.ready
    case Receive => s.filtering.None? && s.toB != []
    case Look => s.filtering.Some? && s.filtering.value.rest != []
    case Answer => s.filtering.Some? && s.filtering.value.rest == []
    case Store(_) => true
    case Accept => s.pushing.None? && s.toA != []
    case Push => s.pushing.Some? && s.pushing.value != []
    case Wake => s.pushing == Some([])
    case Resume => !s.ready && s.token
  }

  function Apply(s: State, a: Action): State
    requires Enabled(s, a)
  {
    match a
    case Add(l, k) =>
      var r := Req(k, l);
      s.(lanes := s.lanes[l := s.lanes[l] + [r]], log := s.log.(added := s.log.added[l := s.log.added[l] + [r]]))
    case Take(l) =>
      s.(batch := s.batch + [s.lanes[l][0]], lanes := s.lanes[l := s.lanes[l][1..]])
    case Send =>
      s.(ready := false, toB := s.toB + [s.batch], batch := [], log := s.log.(announced := s.log.announced + s.batch))
    case Receive => s.(toB := s.toB[1..], filtering := Some(Filter(s.toB[0], [])))
    case Look =>
      var f := s.filtering.value;
      var r, found := f.rest[0], f.rest[0].key in s.has;
      s.(filtering := Some(Filter(f.rest[1..], if found then f.missing else f.missing + [r])),
         log := s.log.(checked := s.log.checked + [Check(r, found)]))
    case Answer => s.(filtering := None, toA := s.toA + [s.filtering.value.missing])
    case Store(h) => s.(has := h)
    case Accept => s.(toA := s.toA[1..], pushing := Some(s.toA[0]))
    case Push =>
      s.(pushing := Some(s.pushing.value[1..]), log := s.log.(pushed := s.log.pushed + [s.pushing.value[0]]))
    case Wake =>
      // the send does not block: with a wake-up already waiting it is dropped
      if s.token then s.(pushing := None, log := s.log.(dropped := s.log.dropped + 1))
      else s.(pushing := None, token := true)
    case Resume => s.(ready := true, token := false)
  }

  // ----- the invariant -----

  function One(b: bool): nat {
    if b then 1 else 0
  }

  /** Where the right to send is. */
  function Tokens(s: State): nat {
    One(s.ready) + |s.toB| + One(s.filtering.Some?) + |s.toA| + One(s.pushing.Some?) + One(s.token)
  }

  function Lane(rs: seq<Req>, l: nat): seq<Req> {
    if rs == [] then [] else Lane(rs[..|rs| - 1], l) + if rs[|rs| - 1].lane == l then [rs[|rs| - 1]] else []
  }

  function Missing(cs: seq<Check>): seq<Req> {
    if cs == [] then []
    else Missing(cs[..|cs| - 1]) + if cs[|cs| - 1].found then [] else [cs[|cs| - 1].req]
  }

  function Asked(cs: seq<Check>): seq<Req> {
    if cs == [] then [] else Asked(cs[..|cs| - 1]) + [cs[|cs| - 1].req]
  }

  function Head(ms: seq<seq<Req>>): seq<Req> {
    if ms == [] then [] else ms[0]
  }

  function InFilter(s: State): seq<Req> {
    if s.filtering.Some? then s.filtering.value.rest else []
  }

  function Lacking(s: State): seq<Req> {
    if s.filtering.Some? then s.filtering.value.missing else []
  }

  function ToPush(s: State): seq<Req> {
    if s.pushing.Some? then s.pushing.value else []
  }

  /** Every key added was announced, is in the batch or waits in its lane, in the
      order it came in. */
  ghost predicate LanesKept(added: seq<seq<Req>>, lanes: seq<seq<Req>>, done: seq<Req>) {
    && |added| == |lanes| == LANES
    && (forall l :: 0 <= l < LANES ==> added[l] == Lane(done, l) + lanes[l])
    && (forall l, i :: 0 <= l < LANES && 0 <= i < |lanes[l]| ==> lanes[l][i].lane == l)
  }

  /** Every key announced was checked, is being checked or is on its way. */
  ghost predicate ChecksKept(s: State) {
    s.log.announced == Asked(s.log.checked) + InFilter(s) + Head(s.toB)
  }

  /** Every key found missing was pushed, or is on its way to be. */
  ghost predicate PushesKept(s: State) {
    Missing(s.log.checked) == s.log.pushed + ToPush(s) + Head(s.toA) + Lacking(s)
  }

  ghost predicate Inv(s: State) {
    && Tokens(s) == 1
    && s.log.dropped == 0
    && LanesKept(s.log.added, s.lanes, s.log.announced + s.batch)
    && ChecksKept(s)
    && PushesKept(s)
  }

  // ----- every step -----

  lemma LaneSnoc(rs: seq<Req>, r: Req, l: nat)
    ensures Lane(rs + [r], l) == Lane(rs, l) + if r.lane == l then [r] else []
  {
    assert (rs + [r])[..|rs|] == rs;
  }

  lemma CheckedSnoc(cs: seq<Check>, c: Check)
    ensures Asked(cs + [c]) == Asked(cs) + [c.req]
    ensures Missing(cs + [c]) == Missing(cs) + if c.found then [] else [c.req]
  {
    assert (cs + [c])[..|cs|] == cs;
  }

  lemma AddInv(s: State, l: nat, k: Key)
    requires Inv(s) && Enabled(s, Add(l, k))
    ensures Inv(Apply(s, Add(l, k)))
  {
    hide Lane, Asked, Missing;
    var s' := Apply(s, Add(l, k));
    var done := s.log.announced + s.batch;
    assert s'.log.added[l] == Lane(done, l) + s'.lanes[l];
    assert ChecksKept(s') && PushesKept(s');
  }

  lemma TakeInv(s: State, l: nat)
    requires Inv(s) && Enabled(s, Take(l))
    ensures Inv(Apply(s, Take(l)))
  {
    hide Asked, Missing;
    var s' := Apply(s, Take(l));
    TakeLanes(s.log.added, s.lanes, s.log.announced + s.batch, l);
    assert s.log.announced + s'.batch == s.log.announced + s.batch + [s.lanes[l][0]];
    hide Lane, LanesKept;
    assert ChecksKept(s') && PushesKept(s');
  }

  lemma TakeLanes(added: seq<seq<Req>>, lanes: seq<seq<Req>>, done: seq<Req>, l: nat)
    requires LanesKept(added, lanes, done) && l < LANES && lanes[l] != []
    ensures LanesKept(added, lanes[l := lanes[l][1..]], done + [lanes[l][0]])
  {
    hide Lane;
    var r, lanes' := lanes[l][0], lanes[l := lanes[l][1..]];
    forall m | 0 <= m < LANES
      ensures added[m] == Lane(done + [r], m) + lanes'[m]
    {
      LaneSnoc(done, r, m);
      assert m == l ==> lanes[m] == [r] + lanes'[m];
    }
  }

  lemma SendInv(s: State)
    requires Inv(s) && s.ready
    ensures Inv(Apply(s, Send))
  {
    hide Lane, Asked, Missing;
    var s' := Apply(s, Send);
    assert s.toB == [] && s'.toB == [s.batch];
    assert s'.log.announced + s'.batch == s.log.announced + s.batch;
    assert ChecksKept(s') && PushesKept(s');
  }

  lemma LookInv(s: State)
    requires Inv(s) && Enabled(s, Look)
    ensures Inv(Apply(s, Look))
  {
    LookChecks(s);
    LookPushes(s);
    hide Lane, LanesKept, ChecksKept, PushesKept;
  }

  lemma LookChecks(s: State)
    requires Enabled(s, Look) && Tokens(s) == 1 && ChecksKept(s)
    ensures ChecksKept(Apply(s, Look))
  {
    hide Asked, Missing;
    var f := s.filtering.value;
    CheckedSnoc(s.log.checked, Check(f.rest[0], f.rest[0].key in s.has));
    NoMessage(s.toB);
    var a := Asked(s.log.checked);
    Shift(a, f.rest);
    var s' := Apply(s, Look);
    assert InFilter(s') == f.rest[1..] && Asked(s'.log.checked) == a + [f.rest[0]];
  }

  lemma NoMessage(ms: seq<seq<Req>>)
    ensures |ms| == 0 ==> Head(ms) == []
  {
  }

  lemma Shift(a: seq<Req>, rest: seq<Req>)
    requires rest != []
    ensures a + rest + [] == a + [rest[0]] + rest[1..] + []
  {
  }

  lemma LookPushes(s: State)
    requires Enabled(s, Look) && Tokens(s) == 1 && PushesKept(s)
    ensures PushesKept(Apply(s, Look))
  {
    hide Asked, Missing;
    var f := s.filtering.value;
    CheckedSnoc(s.log.checked, Check(f.rest[0], f.rest[0].key in s.has));
    assert s.toA == [] && s.pushing.None?;
  }

  lemma MoveInv(s: State, a: Action)
    requires Inv(s) && Enabled(s, a) && (a.Receive? || a.Answer? || a.Accept? || a.Wake? || a.Resume? || a.Store?)
    ensures Inv(Apply(s, a))
  {
    hide Lane, Asked, Missing, LanesKept;
    var s' := Apply(s, a);
    assert a.Receive? ==> |s.toB| == 1 && s.toA == [];
    assert a.Answer? ==> s.toB == [] && s.toA == [];
    assert a.Accept? ==> s.toB == [] && |s.toA| == 1;
    assert ChecksKept(s') && PushesKept(s');
  }

  lemma PushInv(s: State)
    requires Inv(s) && Enabled(s, Push)
    ensures Inv(Apply(s, Push))
  {
    hide Lane, Asked, Missing, LanesKept;
    var s' := Apply(s, Push);
    Shift(s.log.pushed, s.pushing.value);
    assert s.toA == [] && s.filtering.None?;
    assert ChecksKept(s') && PushesKept(s');
  }

  lemma StepInv(s: State, a: Action)
    requires Inv(s) && Enabled(s, a)
    ensures Inv(Apply(s, a))
  {
    hide Inv, Apply;
    match a
    case Add(l, k) => AddInv(s, l, k);
    case Take(l) => TakeInv(s, l);
    case Send => SendInv(s);
    case Look => LookInv(s);
    case Push => PushInv(s);
    case _ => MoveInv(s, a);
  }

  // ----- whole runs -----

  ghost predicate Run(s: State, acts: seq<Action>, s': State)
    decreases |acts|
  {
    if acts == [] then s' == s else Enabled(s, acts[0]) && Run(Apply(s, acts[0]), acts[1..], s')
  }

  lemma {:induction false} RunInv(s: State, acts: seq<Action>, s': State)
    requires Inv(s) && Run(s, acts, s')
    ensures Inv(s')
    decreases |acts|
  {
    hide Inv, Enabled, Apply;
    if acts != [] {
      StepInv(s, acts[0]);
      RunInv(Apply(s, acts[0]), acts[1..], s');
    }
  }

  lemma InitInv()
    ensures Inv(INIT)
  {
  }

  /** In every run exactly one party may act, and no wake-up is ever dropped by
      the non-blocking send. */
  lemma OneToken(acts: seq<Action>, s: State)
    requires Run(INIT, acts, s)
    ensures Tokens(s) == 1 && s.log.dropped == 0
  {
    InitInv();
    RunInv(INIT, acts, s);
  }

  /** Every verdict of the receiver was true of its store at some point of the run. */
  lemma {:induction false} CheckWasTrue(s: State, acts: seq<Action>, s': State, c: Check) returns (i: nat, t: State)
    requires Run(s, acts, s') && c in s'.log.checked && c !in s.log.checked
    ensures i <= |acts| && Run(s, acts[..i], t) && (c.req.key in t.has <==> c.found)
    decreases |acts|
  {
    var s1 := Apply(s, acts[0]);
    if c in s1.log.checked {
      i, t := 0, s;
    } else {
      i, t := CheckWasTrue(s1, acts[1..], s', c);
      assert acts[..i + 1][1..] == acts[1..][..i] && acts[..i + 1][0] == acts[0];
      i := i + 1;
    }
  }

  /** A chunk is pushed only if its key was announced and at some point of the run
      the receiver did not have it. */
  lemma PushedWasMissing(acts: seq<Action>, s: State, n: nat) returns (i: nat, t: State)
    requires Run(INIT, acts, s) && n < |s.log.pushed|
    ensures s.log.pushed[n] in s.log.announced && Check(s.log.pushed[n], false) in s.log.checked
    ensures i <= |acts| && Run(INIT, acts[..i], t) && s.log.pushed[n].key !in t.has
  {
    InitInv();
    RunInv(INIT, acts, s);
    var r := s.log.pushed[n];
    assert Missing(s.log.checked)[n] == r;
    MissingChecked(s.log.checked, r);
    AskedChecked(s.log.checked, r);
    hide Run, Inv;
    i, t := CheckWasTrue(INIT, acts, s, Check(r, false));
  }

  lemma {:induction false} MissingChecked(cs: seq<Check>, r: Req)
    requires r in Missing(cs)
    ensures Check(r, false) in cs
  {
    var n := |cs| - 1;
    if r in Missing(cs[..n]) {
      MissingChecked(cs[..n], r);
    } else {
      assert cs[n] == Check(r, false);
    }
  }

  lemma {:induction false} AskedChecked(cs: seq<Check>, r: Req)
    requires Check(r, false) in cs
    ensures r in Asked(cs)
  {
    var n := |cs| - 1;
    if cs[n] != Check(r, false) {
      assert cs == cs[..n] + [cs[n]];
      AskedChecked(cs[..n], r);
    }
  }

  /** When the sender may send again, the receiver has looked for every key that
      was announced, and exactly those it lacked were pushed, in order. */
  lemma ReadyMeansDone(acts: seq<Action>, s: State)
    requires Run(INIT, acts, s) && s.ready
    ensures Asked(s.log.checked) == s.log.announced && Missing(s.log.checked) == s.log.pushed
  {
    InitInv();
    RunInv(INIT, acts, s);
    hide Asked, Missing, LanesKept;
    assert s.log.announced == Asked(s.log.checked) + [] + [];
    assert Missing(s.log.checked) == s.log.pushed + [] + [] + [];
  }

  /** No lane loses, repeats or reorders a key. */
  lemma LaneOrder(acts: seq<Action>, s: State, l: nat)
    requires Run(INIT, acts, s) && l < LANES
    ensures |s.lanes| == |s.log.added| == LANES && s.log.added[l] == Lane(s.log.announced + s.batch, l) + s.lanes[l]
  {
    InitInv();
    RunInv(INIT, acts, s);
  }

  // ----- the exchange comes to an end -----

  predicate Exchange(a: Action) {
    a.Receive? || a.Look? || a.Answer? || a.Accept? || a.Push? || a.Wake? || a.Resume?
  }

  /** How much of the exchange is left. */
  function Left(s: State): nat {
    if s.ready then 0
    else if s.token then 1
    else if s.pushing.Some? then 2 + |s.pushing.value|
    else if s.toA != [] then 3 + |s.toA[0]|
    else if s.filtering.Some? then 4 + 2 * |s.filtering.value.rest| + |s.filtering.value.missing|
    else 5 + 2 * |Head(s.toB)|
  }

  /** While the sender waits some step of the exchange is enabled, so the two
      never wait for each other. */
  lemma NoDeadlock(s: State) returns (a: Action)
    requires Inv(s) && !s.ready
    ensures Exchange(a) && Enabled(s, a)
  {
    if s.token {
      a := Resume;
    } else if s.pushing.Some? {
      a := if s.pushing.value == [] then Wake else Push;
    } else if s.toA != [] {
      a := Accept;
    } else if s.filtering.Some? {
      a := if s.filtering.value.rest == [] then Answer else Look;
    } else {
      a := Receive;
    }
  }

  /** And every such step brings the next batch nearer. */
  lemma ExchangeEnds(s: State, a: Action)
    requires Inv(s) && Enabled(s, a) && Exchange(a)
    ensures !s.ready && Left(Apply(s, a)) < Left(s)
  {
    hide LanesKept, ChecksKept, PushesKept;
  }

  /** Nothing else moves it back. */
  lemma OthersLeave(s: State, a: Action)
    requires Inv(s) && Enabled(s, a) && !Exchange(a) && !a.Send?
    ensures Left(Apply(s, a)) == Left(s) && Apply(s, a).ready == s.ready
  {
    hide LanesKept, ChecksKept, PushesKept;
  }
}
