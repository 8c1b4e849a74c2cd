/** The byte layout of the request database: why iterating it in key order is
    iterating a queue by counter, and why replaying a record gives back the
    request that was saved. */
module SyncKeys {
  import opened Bytes
  import opened SyncQueue

  const PRIORITIES: nat := 3
  const PEER_SIZE: nat := 32

  /** One queue: a priority and the address of a peer. */
  datatype Domain = Domain(priority: nat, peer: Key)

  predicate IsDomain(q: Domain) {
    q.priority < PRIORITIES && |q.peer| == PEER_SIZE
  }

  function Prefix(q: Domain): (p: seq<Byte>)
    requires IsDomain(q)
    ensures |p| == 33
  {
    [PRIORITIES - q.priority] + q.peer
  }

  predicate FitsU64(v: nat) {
    v < Pow256(8)
  }

  /** 42 bytes: 0x00, priority, peer address, big-endian counter. */
  function EntryKey(q: Domain, ctr: nat): (k: seq<Byte>)
    requires IsDomain(q) && FitsU64(ctr)
    ensures |k| == 42
  {
    [0] + Prefix(q) + BigEndian(ctr, 8)
  }

  /** 34 bytes: 0x01 instead of 0x00 and no counter. */
  function CounterKey(q: Domain): (k: seq<Byte>)
    requires IsDomain(q)
    ensures |k| == 34
  {
    [1] + Prefix(q)
  }

  predicate IsRequest(r: Request) {
    |r.key| == 32 && FitsU64(r.id)
  }

  /** 40 bytes: chunk key and big-endian request id. */
  function EntryVal(r: Request): (v: seq<Byte>)
    requires IsRequest(r)
    ensures |v| == 40
  {
    r.key + BigEndian(r.id, 8)
  }

  /** parseRequest on a database entry. */
  function ParseEntry(v: seq<Byte>): Request
    requires |v| == 40
  {
    Request(v[..32], FromBigEndian(v[32..]))
  }

  /** Which byte is where: the marker, the priority turned round, the peer, the
      counter; and in the value the chunk key and the request id. */
  lemma Layout(q: Domain, c: nat, r: Request)
    requires IsDomain(q) && FitsU64(c) && IsRequest(r)
    ensures var k := EntryKey(q, c);
            k[0] == 0 && k[1] == 3 - q.priority && k[2..34] == q.peer && FromBigEndian(k[34..42]) == c
    ensures CounterKey(q)[0] == 1 && CounterKey(q)[1..] == EntryKey(q, c)[1..34]
    ensures EntryVal(r)[..32] == r.key && FromBigEndian(EntryVal(r)[32..40]) == r.id
  {
    hide BigEndian, FromBigEndian, Pow256;
    BigEndianRoundTrip(c, 8);
    BigEndianRoundTrip(r.id, 8);
    var k, v := EntryKey(q, c), EntryVal(r);
    assert k[34..42] == BigEndian(c, 8) && k[2..34] == q.peer;
    assert v[32..40] == BigEndian(r.id, 8) && v[..32] == r.key;
    assert CounterKey(q)[1..] == Prefix(q) == k[1..34];
  }

  lemma ParseRecoversRequest(r: Request)
    requires IsRequest(r)
    ensures ParseEntry(EntryVal(r)) == r
  {
    hide BigEndian, FromBigEndian, Pow256;
    BigEndianRoundTrip(r.id, 8);
    var v := EntryVal(r);
    assert v[..32] == r.key && v[32..] == BigEndian(r.id, 8);
  }

  /** Within one queue, byte order is counter order. */
  lemma EntryKeyOrder(q: Domain, c: nat, d: nat)
    requires IsDomain(q) && FitsU64(c) && FitsU64(d)
    ensures Less(EntryKey(q, c), EntryKey(q, d)) <==> c < d
  {
    hide BigEndian, Less, Pow256;
    LessSharedPrefix([0] + Prefix(q), BigEndian(c, 8), BigEndian(d, 8));
    BigEndianOrder(c, d, 8);
  }

  /** Every counter key sorts after every entry, so an iterator meets it when the
      entries are used up. */
  lemma CounterKeyIsLast(q: Domain, c: nat, q': Domain)
    requires IsDomain(q) && IsDomain(q') && FitsU64(c)
    ensures Less(EntryKey(q, c), CounterKey(q'))
  {
    hide BigEndian, Pow256;
    assert EntryKey(q, c)[0] == 0 && CounterKey(q')[0] == 1;
  }

  /** Higher priorities are replayed first. */
  lemma HighPriorityFirst(q: Domain, c: nat, q': Domain, d: nat)
    requires IsDomain(q) && IsDomain(q') && FitsU64(c) && FitsU64(d) && q.priority > q'.priority
    ensures Less(EntryKey(q, c), EntryKey(q', d))
  {
    hide BigEndian, Pow256;
    var a, b := q.peer + BigEndian(c, 8), q'.peer + BigEndian(d, 8);
    assert EntryKey(q, c) == [0] + ([PRIORITIES - q.priority] + a);
    assert EntryKey(q', d) == [0] + ([PRIORITIES - q'.priority] + b);
    LessCons(PRIORITIES - q.priority, a, PRIORITIES - q'.priority, b);
    LessCons(0, [PRIORITIES - q.priority] + a, 0, [PRIORITIES - q'.priority] + b);
  }

  /** The domains of different queues are disjoint. */
  lemma DomainsDisjoint(q: Domain, c: nat, q': Domain, d: nat)
    requires IsDomain(q) && IsDomain(q') && FitsU64(c) && FitsU64(d)
    requires EntryKey(q, c) == EntryKey(q', d)
    ensures q == q' && c == d
  {
    hide BigEndian, Pow256, FromBigEndian;
    var k, k' := EntryKey(q, c), EntryKey(q', d);
    assert k[1] == PRIORITIES - q.priority && k'[1] == PRIORITIES - q'.priority;
    assert k[2..34] == q.peer && k'[2..34] == q'.peer;
    assert k[34..] == BigEndian(c, 8) && k'[34..] == BigEndian(d, 8);
    BigEndianRoundTrip(c, 8);
    BigEndianRoundTrip(d, 8);
  }

  // ----- the queue's database as bytes -----

  ghost predicate Storable(es: seq<Entry>) {
    forall i :: 0 <= i < |es| ==> FitsU64(es[i].ctr) && IsRequest(es[i].req)
  }

  datatype Record = Record(key: seq<Byte>, val: seq<Byte>)

  ghost function Encoded(q: Domain, es: seq<Entry>): (rs: seq<Record>)
    requires IsDomain(q) && Storable(es)
    ensures |rs| == |es|
  {
    seq(|es|, i requires 0 <= i < |es| => Record(EntryKey(q, es[i].ctr), EntryVal(es[i].req)))
  }

  /** The list of entries by counter is exactly the byte database by key. */
  lemma ByteOrderIsQueueOrder(q: Domain, es: seq<Entry>)
    requires IsDomain(q) && Storable(es)
    ensures Sorted(es) <==> forall i, j :: 0 <= i < j < |es| ==> Less(Encoded(q, es)[i].key, Encoded(q, es)[j].key)
  {
    hide BigEndian, Less, Pow256;
    forall i, j | 0 <= i < j < |es|
      ensures Less(Encoded(q, es)[i].key, Encoded(q, es)[j].key) <==> es[i].ctr < es[j].ctr
    {
      EntryKeyOrder(q, es[i].ctr, es[j].ctr);
    }
  }

  /** Replaying the records in key order yields the saved requests in order. */
  lemma {:induction false} ReplayDecodes(q: Domain, es: seq<Entry>, i: nat)
    requires IsDomain(q) && Storable(es) && i < |es|
    ensures |Items(es)| == |es| && ParseEntry(Encoded(q, es)[i].val) == Items(es)[i]
  {
    ParseRecoversRequest(es[i].req);
    hide BigEndian, FromBigEndian, Pow256, ParseEntry, EntryVal;
    ItemsAt(es, i);
  }

  lemma {:induction false} ItemsAt(es: seq<Entry>, i: nat)
    requires i < |es|
    ensures |Items(es)| == |es| && Items(es)[i] == es[i].req
  {
    if |es| > 1 {
      ItemsAt(es[1..], if i == 0 then 0 else i - 1);
    }
  }
}
