/**
 The cache of packets waiting for a userspace verdict.

 `Cache` is the abstract value: an ordered queue, the requests being applied,
 the captured thread IDs and the next request ID. The class below adds the
 reverse index by connection instance and is proved against the functions here.
 */
module RequestSpec {
  import opened Net

  datatype Packet = Network(inbound: bool) | Ale

  /** An outbound UDP clone stays deliverable after its socket is gone. */
  predicate Survives(packet: Packet, key: Key) {
    key.protocol == UDP && packet.Network? && !packet.inbound
  }

  datatype Pending = Pending(key: Key, packet: Packet, instance: Option<nat>)

  datatype Entry = Entry(id: nat, value: Pending)

  datatype Identity = Identity(key: Key, instance: Option<nat>)

  datatype Cache = Cache(queue: seq<Entry>, active: map<nat, Identity>, threads: map<nat, nat>, nextId: nat)

  const EMPTY := Cache([], map[], map[], 1)

  function NewEntries(first: nat, key: Key, packets: seq<Packet>, instance: Option<nat>): seq<Entry> {
    seq(|packets|, i requires 0 <= i < |packets| => Entry(first + i, Pending(key, packets[i], instance)))
  }

  /** Zero means no thread was captured. */
  function Capture(threads: map<nat, nat>, added: seq<Entry>, thread: nat): map<nat, nat> {
    if thread == 0 then threads else threads + map id | id in IdSet(added) :: thread
  }

  /** A key that mixes address families yields no event and therefore no request. */
  function Push(c: Cache, key: Key, packets: seq<Packet>, instance: Option<nat>, thread: nat): Cache {
    if !SameFamily(key) then c else
      Cache(c.queue + NewEntries(c.nextId, key, packets, instance),
            c.active,
            Capture(c.threads, NewEntries(c.nextId, key, packets, instance), thread),
            c.nextId + |packets|)
  }

  function IndexOf(q: seq<Entry>, id: nat): (r: Option<nat>)
    ensures r.Some? ==> r.value < |q| && q[r.value].id == id
    ensures r.None? ==> forall i :: 0 <= i < |q| ==> q[i].id != id
  {
    if q == [] then None
    else if q[|q| - 1].id == id then Some(|q| - 1)
    else IndexOf(q[..|q| - 1], id)
  }

  function Claim(c: Cache, id: nat): (Option<Pending>, Cache) {
    match IndexOf(c.queue, id)
    case None => (None, c)
    case Some(i) =>
      var value := c.queue[i].value;
      (Some(value), c.(queue := c.queue[..i] + c.queue[i + 1..],
                       active := c.active[id := Identity(value.key, value.instance)]))
  }

  function Finish(c: Cache, id: nat): Cache {
    c.(active := c.active - {id}, threads := c.threads - {id})
  }

  predicate BoundTo(e: Entry, instances: set<nat>) {
    e.value.instance.Some? && e.value.instance.value in instances
  }

  predicate Discarded(e: Entry, instances: set<nat>) {
    BoundTo(e, instances) && !Survives(e.value.packet, e.value.key)
  }

  function AfterEnd(e: Entry, instances: set<nat>): Entry {
    if BoundTo(e, instances) then e.(value := e.value.(instance := None)) else e
  }

  /** The entries that are discarded, or those that are not, in queue order. */
  function Half(q: seq<Entry>, instances: set<nat>, discarded: bool): seq<Entry> {
    if q == [] then [] else
      var e := q[|q| - 1];
      Half(q[..|q| - 1], instances, discarded) + if Discarded(e, instances) == discarded then [e] else []
  }

  /** What stays queued: the other half in its old order, with ended instances detached. */
  function Kept(q: seq<Entry>, instances: set<nat>): seq<Entry> {
    var rest := Half(q, instances, false);
    seq(|rest|, i requires 0 <= i < |rest| => AfterEnd(rest[i], instances))
  }

  /** What is handed back for fail-closed completion. */
  function Removed(q: seq<Entry>, instances: set<nat>): seq<Entry> {
    Half(q, instances, true)
  }

  function IdSet(q: seq<Entry>): set<nat> {
    set i | 0 <= i < |q| :: q[i].id
  }

  /** One stable partition of the queue by connection instance. */
  function Retire(c: Cache, instances: set<nat>): Cache {
    c.(queue := Kept(c.queue, instances), threads := c.threads - IdSet(Removed(c.queue, instances)))
  }

  function Drain(c: Cache): Cache {
    c.(queue := [], threads := map[])
  }

  /**
   Whether a request holds up the closure of a TCP endpoint. A loopback-like peer
   sees the same flow with its tuple reversed and under another instance.
   */
  predicate RequestMatches(endpointKey: Key, endpointInstance: nat, key: Key, instance: Option<nat>) {
    instance == Some(endpointInstance) || (IsLoopbackLike(endpointKey) && key == Reverse(endpointKey))
  }

  /** The requests, queued or being applied, that hold up an endpoint: a full scan. */
  function EndpointRequests(c: Cache, key: Key, instance: nat): set<nat> {
    (set e | e in c.queue && RequestMatches(key, instance, e.value.key, e.value.instance) :: e.id)
    + (set id | id in c.active && RequestMatches(key, instance, c.active[id].key, c.active[id].instance))
  }

  ghost predicate Ordered(q: seq<Entry>) {
    forall i, j :: 0 <= i < j < |q| ==> q[i].id < q[j].id
  }

  ghost predicate Valid(c: Cache) {
    && c.nextId >= 1
    && Ordered(c.queue)
    && (forall i :: 0 <= i < |c.queue| ==> 1 <= c.queue[i].id < c.nextId && c.queue[i].id !in c.active)
    && (forall id :: id in c.active ==> 1 <= id < c.nextId)
    && (forall id :: id in c.threads ==> 1 <= id < c.nextId && c.threads[id] != 0)
  }

  // ---- how the partition behaves -------------------------------------------------

  lemma {:induction false} HalfIsFilter(q: seq<Entry>, s: set<nat>, discarded: bool)
    ensures forall e :: e in Half(q, s, discarded) <==> e in q && Discarded(e, s) == discarded
  {
    if q != [] {
      HalfIsFilter(q[..|q| - 1], s, discarded);
      assert q == q[..|q| - 1] + [q[|q| - 1]];
    }
  }

  lemma OrderedAppend(q: seq<Entry>, e: Entry)
    requires Ordered(q) && forall d :: d in q ==> d.id < e.id
    ensures Ordered(q + [e])
  {
  }

  lemma {:induction false} HalfOrdered(q: seq<Entry>, s: set<nat>, discarded: bool)
    requires Ordered(q)
    ensures Ordered(Half(q, s, discarded))
  {
    if q != [] {
      HalfOrdered(q[..|q| - 1], s, discarded);
      HalfIsFilter(q[..|q| - 1], s, discarded);
      assert forall d :: d in q[..|q| - 1] ==> d.id < q[|q| - 1].id;
      OrderedAppend(Half(q[..|q| - 1], s, discarded), q[|q| - 1]);
    }
  }

  lemma InIdSet(q: seq<Entry>)
    ensures forall id :: id in IdSet(q) <==> exists e :: e in q && e.id == id
  {
  }

  /** Every queued ID ends up in exactly one half, and both halves keep the queue's order. */
  lemma PartitionIds(q: seq<Entry>, s: set<nat>)
    requires Ordered(q)
    ensures Ordered(Kept(q, s)) && Ordered(Removed(q, s))
    ensures IdSet(Kept(q, s)) + IdSet(Removed(q, s)) == IdSet(q)
    ensures IdSet(Kept(q, s)) !! IdSet(Removed(q, s))
  {
    HalfOrdered(q, s, true);
    HalfOrdered(q, s, false);
    HalfIsFilter(q, s, true);
    HalfIsFilter(q, s, false);
    var rest := Half(q, s, false);
    assert IdSet(Kept(q, s)) == IdSet(rest) by {
      assert forall i :: 0 <= i < |rest| ==> Kept(q, s)[i].id == rest[i].id;
    }
    InIdSet(rest);
    InIdSet(Removed(q, s));
    InIdSet(q);
    forall d, e | d in q && e in q && d.id == e.id ensures d == e {
    }
  }
}
