/**
 Whole runs of the request cache: what every sequence of operations keeps.
 */
module RequestRuns {
  import opened Net
  import opened RequestSpec

  datatype Op =
    | OpPush(key: Key, packets: seq<Packet>, instance: Option<nat>, thread: nat)
    | OpClaim(id: nat)
    | OpFinish(id: nat)
    | OpRetire(instances: set<nat>)
    | OpDrain

  function Step(c: Cache, op: Op): Cache {
    match op
    case OpPush(key, packets, instance, thread) => Push(c, key, packets, instance, thread)
    case OpClaim(id) => Claim(c, id).1
    case OpFinish(id) => Finish(c, id)
    case OpRetire(instances) => Retire(c, instances)
    case OpDrain => Drain(c)
  }

  function Run(c: Cache, ops: seq<Op>): Cache
    decreases |ops|
  {
    if ops == [] then c else Run(Step(c, ops[0]), ops[1..])
  }

  /** A request is not yet issued, waiting, being applied, or over. */
  datatype Status = Unissued | Queued | Active | Done

  function StatusOf(c: Cache, id: nat): Status {
    if id in IdSet(c.queue) then Queued
    else if id in c.active then Active
    else if 1 <= id < c.nextId then Done
    else Unissued
  }

  function Rank(s: Status): nat {
    match s case Unissued => 0 case Queued => 1 case Active => 2 case Done => 3
  }

  // ---- one step ------------------------------------------------------------------

  lemma NewIds(first: nat, key: Key, packets: seq<Packet>, instance: Option<nat>)
    ensures forall id :: id in IdSet(NewEntries(first, key, packets, instance)) <==> first <= id < first + |packets|
  {
    var added := NewEntries(first, key, packets, instance);
    forall id | first <= id < first + |packets| ensures id in IdSet(added) {
      assert added[id - first].id == id;
    }
  }

  lemma IdSetAppend(a: seq<Entry>, b: seq<Entry>)
    ensures IdSet(a + b) == IdSet(a) + IdSet(b)
  {
    InIdSet(a);
    InIdSet(b);
    InIdSet(a + b);
  }

  /** Entries with larger IDs go behind. */
  lemma OrderedConcat(a: seq<Entry>, b: seq<Entry>, n: nat)
    requires Ordered(a) && Ordered(b)
    requires (forall e :: e in a ==> e.id < n) && (forall e :: e in b ==> n <= e.id)
    ensures Ordered(a + b)
  {
    forall i, j | 0 <= i < j < |a + b| ensures (a + b)[i].id < (a + b)[j].id {
      if i < |a| <= j {
        assert (a + b)[i] in a && (a + b)[j] in b;
      }
    }
  }

  lemma NewEntriesOk(first: nat, key: Key, packets: seq<Packet>, instance: Option<nat>)
    ensures var added := NewEntries(first, key, packets, instance);
            Ordered(added) && forall e :: e in added ==> first <= e.id < first + |packets|
  {
  }

  lemma CapturedIds(threads: map<nat, nat>, added: seq<Entry>, thread: nat, n: nat, m: nat)
    requires 1 <= n <= m && forall id :: id in threads ==> 1 <= id < n && threads[id] != 0
    requires forall id :: id in IdSet(added) <==> n <= id < m
    ensures var t := Capture(threads, added, thread); forall id :: id in t ==> 1 <= id < m && t[id] != 0
  {
    hide IdSet;
  }

  lemma PushedIds(c: Cache, added: seq<Entry>, limit: nat)
    requires Valid(c) && c.nextId <= limit && forall e :: e in added ==> c.nextId <= e.id < limit
    ensures forall e :: e in c.queue + added ==> 1 <= e.id < limit && e.id !in c.active
  {
    forall e | e in c.queue ensures 1 <= e.id < c.nextId && e.id !in c.active {
    }
  }

  lemma PushValid(c: Cache, key: Key, packets: seq<Packet>, instance: Option<nat>, thread: nat)
    requires Valid(c)
    ensures Valid(Push(c, key, packets, instance, thread))
    ensures SameFamily(key) ==>
              IdSet(Push(c, key, packets, instance, thread).queue)
              == IdSet(c.queue) + IdSet(NewEntries(c.nextId, key, packets, instance))
  {
    if SameFamily(key) {
      var added := NewEntries(c.nextId, key, packets, instance);
      NewIds(c.nextId, key, packets, instance);
      IdSetAppend(c.queue, added);
      NewEntriesOk(c.nextId, key, packets, instance);
      OrderedConcat(c.queue, added, c.nextId);
      PushedIds(c, added, c.nextId + |packets|);
      CapturedIds(c.threads, added, thread, c.nextId, c.nextId + |packets|);
      hide Ordered, IdSet, NewEntries, Capture;
      var d := Push(c, key, packets, instance, thread);
      assert d == Cache(c.queue + added, c.active, Capture(c.threads, added, thread), c.nextId + |packets|);
      forall i | 0 <= i < |d.queue| ensures 1 <= d.queue[i].id < d.nextId && d.queue[i].id !in d.active {
        assert d.queue[i] in d.queue;
      }
    }
  }

  lemma RemoveAt(q: seq<Entry>, i: nat)
    requires Ordered(q) && i < |q|
    ensures Ordered(q[..i] + q[i + 1..])
    ensures IdSet(q[..i] + q[i + 1..]) == IdSet(q) - {q[i].id}
    ensures forall e :: e in q[..i] + q[i + 1..] ==> e in q
  {
    var r := q[..i] + q[i + 1..];
    assert forall k :: 0 <= k < |r| ==> r[k] == q[if k < i then k else k + 1];
    forall id | id in IdSet(q) - {q[i].id} ensures id in IdSet(r) {
      var k :| 0 <= k < |q| && q[k].id == id;
      assert r[if k < i then k else k - 1].id == id;
    }
  }

  lemma ClaimMisses(q: seq<Entry>, id: nat)
    requires IndexOf(q, id).None?
    ensures id !in IdSet(q)
  {
  }

  lemma ClaimHits(c: Cache, id: nat, at: nat)
    requires Valid(c) && at < |c.queue| && c.queue[at].id == id
    ensures var q := c.queue[..at] + c.queue[at + 1..];
            && Ordered(q) && IdSet(q) == IdSet(c.queue) - {id}
            && forall k :: 0 <= k < |q| ==> 1 <= q[k].id < c.nextId && q[k].id !in c.active && q[k].id != id
  {
    RemoveAt(c.queue, at);
    var q := c.queue[..at] + c.queue[at + 1..];
    forall k | 0 <= k < |q| ensures q[k] in c.queue && q[k].id != id {
      assert q[k] in q && q[k].id in IdSet(q);
    }
  }

  lemma ClaimValid(c: Cache, id: nat)
    requires Valid(c)
    ensures Valid(Claim(c, id).1)
    ensures Claim(c, id).0.Some? <==> id in IdSet(c.queue)
    ensures IdSet(Claim(c, id).1.queue) == IdSet(c.queue) - {id}
  {
    var at := IndexOf(c.queue, id);
    if at.Some? {
      ClaimHits(c, id, at.value);
      assert c.queue[at.value].id in IdSet(c.queue);
    } else {
      ClaimMisses(c.queue, id);
    }
  }

  lemma RetireValid(c: Cache, s: set<nat>)
    requires Valid(c)
    ensures Valid(Retire(c, s))
    ensures IdSet(Retire(c, s).queue) == IdSet(c.queue) - IdSet(Removed(c.queue, s))
  {
    PartitionIds(c.queue, s);
    var q := Retire(c, s).queue;
    forall i | 0 <= i < |q| ensures 1 <= q[i].id < c.nextId && q[i].id !in c.active {
      assert q[i].id in IdSet(q);
    }
  }

  lemma StepValid(c: Cache, op: Op)
    requires Valid(c)
    ensures Valid(Step(c, op))
  {
    match op
    case OpPush(key, packets, instance, thread) => PushValid(c, key, packets, instance, thread);
    case OpClaim(id) => ClaimValid(c, id);
    case OpFinish(id) =>
    case OpRetire(instances) => RetireValid(c, instances);
    case OpDrain =>
  }

  lemma StepMonotone(c: Cache, op: Op, id: nat)
    requires Valid(c)
    ensures Rank(StatusOf(c, id)) <= Rank(StatusOf(Step(c, op), id))
    ensures StatusOf(Step(c, op), id).Active? && !StatusOf(c, id).Active? ==> op == OpClaim(id)
  {
    assert id in IdSet(c.queue) ==> 1 <= id < c.nextId && id !in c.active;
    match op
    case OpPush(key, packets, instance, thread) =>
      PushValid(c, key, packets, instance, thread);
      NewIds(c.nextId, key, packets, instance);
    case OpClaim(i) => ClaimValid(c, i);
    case OpFinish(i) =>
    case OpRetire(instances) => RetireValid(c, instances);
    case OpDrain =>
  }

  // ---- what the operations do to requests --------------------------------------------

  /**
   Every packet gets one entry behind the queue, under the next IDs and in order; a captured
   thread goes with each.
   */
  lemma PushMeaning(c: Cache, key: Key, packets: seq<Packet>, instance: Option<nat>, thread: nat)
    ensures var d := Push(c, key, packets, instance, thread);
            if key.localAddress.V6? != key.remoteAddress.V6? then d == c
            else
              && d.active == c.active && d.nextId == c.nextId + |packets|
              && |d.queue| == |c.queue| + |packets| && d.queue[..|c.queue|] == c.queue
              && (forall k :: 0 <= k < |packets| ==>
                    d.queue[|c.queue| + k] == Entry(c.nextId + k, Pending(key, packets[k], instance)))
              && (forall id :: id in d.threads <==> id in c.threads || (thread != 0 && c.nextId <= id < d.nextId))
              && (forall id :: id in d.threads ==>
                    d.threads[id] == if thread != 0 && c.nextId <= id < d.nextId then thread else c.threads[id])
  {
    NewIds(c.nextId, key, packets, instance);
    hide IdSet;
    var d := Push(c, key, packets, instance, thread);
    if SameFamily(key) {
      assert d.queue[..|c.queue|] == c.queue;
    }
  }

  /** A claim takes out the entry of its ID, hands over what was queued, and remembers whose it is. */
  lemma ClaimMeaning(c: Cache, id: nat, at: nat)
    requires Valid(c) && at < |c.queue| && c.queue[at].id == id
    ensures var e := c.queue[at];
            Claim(c, id) == (Some(e.value), Cache(c.queue[..at] + c.queue[at + 1..],
                                                  c.active[id := Identity(e.value.key, e.value.instance)],
                                                  c.threads, c.nextId))
  {
  }

  /**
   Retiring instances: a request bound to none of them stays as it is; of the others an
   outbound UDP packet stays queued without its instance, and any other leaves the queue.
   */
  lemma RetireMeaning(c: Cache, instances: set<nat>, e: Entry)
    requires Valid(c) && e in c.queue
    ensures var d := Retire(c, instances);
            var bound := e.value.instance.Some? && e.value.instance.value in instances;
            var sent := e.value.key.protocol == 17 && e.value.packet == Network(false);
            && d.active == c.active && d.nextId == c.nextId
            && (!bound ==> e in d.queue && e !in Removed(c.queue, instances))
            && (bound && sent ==> Entry(e.id, Pending(e.value.key, e.value.packet, None)) in d.queue)
            && (bound && !sent ==> e.id !in IdSet(d.queue) && e in Removed(c.queue, instances) && e.id !in d.threads)
            && (!(bound && !sent) ==> (e.id in d.threads <==> e.id in c.threads))
  {
    var q := c.queue;
    HalfIsFilter(q, instances, true);
    HalfIsFilter(q, instances, false);
    PartitionIds(q, instances);
    var rest := Half(q, instances, false);
    InIdSet(Removed(q, instances));
    if e in rest {
      var i :| 0 <= i < |rest| && rest[i] == e;
      assert Kept(q, instances)[i] == AfterEnd(e, instances);
      assert e.id in IdSet(Kept(q, instances));
    }
  }

  // ---- whole runs ----------------------------------------------------------------

  lemma {:induction false} RunValid(c: Cache, ops: seq<Op>)
    requires Valid(c)
    ensures Valid(Run(c, ops))
    decreases |ops|
  {
    if ops != [] {
      StepValid(c, ops[0]);
      RunValid(Step(c, ops[0]), ops[1..]);
    }
  }

  /** The IDs handed out by a run, in the order they were handed out. */
  function Issued(c: Cache, ops: seq<Op>): seq<nat>
    decreases |ops|
  {
    if ops == [] then [] else
      (if ops[0].OpPush? && SameFamily(ops[0].key)
       then seq(|ops[0].packets|, i => c.nextId + i) else [])
      + Issued(Step(c, ops[0]), ops[1..])
  }

  lemma {:induction false} IssuedConsecutive(c: Cache, ops: seq<Op>)
    ensures Run(c, ops).nextId == c.nextId + |Issued(c, ops)|
    ensures forall k :: 0 <= k < |Issued(c, ops)| ==> Issued(c, ops)[k] == c.nextId + k
    decreases |ops|
  {
    if ops != [] {
      IssuedConsecutive(Step(c, ops[0]), ops[1..]);
    }
  }

  /** From a fresh cache the issued IDs are 1, 2, ... up to but excluding `nextId`: none skipped, none reused. */
  lemma IssuedExactly(ops: seq<Op>)
    ensures var c := Run(EMPTY, ops);
            c.nextId >= 1 && Issued(EMPTY, ops) == seq(c.nextId - 1, k => k + 1)
  {
    IssuedConsecutive(EMPTY, ops);
  }

  /** A request never moves back: unissued, queued, active, done. */
  lemma {:induction false} StatusMonotone(c: Cache, ops: seq<Op>, id: nat)
    requires Valid(c)
    ensures Rank(StatusOf(c, id)) <= Rank(StatusOf(Run(c, ops), id))
    decreases |ops|
  {
    if ops != [] {
      StepValid(c, ops[0]);
      StepMonotone(c, ops[0], id);
      StatusMonotone(Step(c, ops[0]), ops[1..], id);
    }
  }

  /** How many verdicts in a run obtained the packet of this request. */
  function Claims(c: Cache, ops: seq<Op>, id: nat): nat
    decreases |ops|
  {
    if ops == [] then 0 else
      (if ops[0] == OpClaim(id) && Claim(c, id).0.Some? then 1 else 0) + Claims(Step(c, ops[0]), ops[1..], id)
  }

  /** A packet is given to at most one verdict, and to none once its request left the queue. */
  lemma {:induction false} ClaimedAtMostOnce(c: Cache, ops: seq<Op>, id: nat)
    requires Valid(c)
    ensures Claims(c, ops, id) <= 1
    ensures Rank(StatusOf(c, id)) >= 2 ==> Claims(c, ops, id) == 0
    decreases |ops|
  {
    if ops != [] {
      StepValid(c, ops[0]);
      StepMonotone(c, ops[0], id);
      ClaimValid(c, id);
      ClaimedAtMostOnce(Step(c, ops[0]), ops[1..], id);
    }
  }

  /** The operations that are allowed to forget a captured thread ID. */
  predicate Forgets(c: Cache, op: Op, id: nat) {
    match op
    case OpFinish(i) => i == id
    case OpDrain => true
    case OpRetire(s) => id in IdSet(Removed(c.queue, s))
    case _ => false
  }

  predicate NeverForgets(c: Cache, ops: seq<Op>, id: nat)
    decreases |ops|
  {
    ops == [] || (!Forgets(c, ops[0], id) && NeverForgets(Step(c, ops[0]), ops[1..], id))
  }

  /** A captured thread ID is constant over any run that does not finish, retire or drain its request. */
  lemma {:induction false} ThreadStable(c: Cache, ops: seq<Op>, id: nat)
    requires Valid(c) && 1 <= id < c.nextId && NeverForgets(c, ops, id)
    ensures (id in Run(c, ops).threads) == (id in c.threads)
    ensures id in c.threads ==> Run(c, ops).threads[id] == c.threads[id]
    decreases |ops|
  {
    if ops != [] {
      StepValid(c, ops[0]);
      var d := Step(c, ops[0]);
      assert d.nextId >= c.nextId;
      assert (id in d.threads) == (id in c.threads) && (id in c.threads ==> d.threads[id] == c.threads[id]) by {
        if ops[0].OpPush? {
          NewIds(c.nextId, ops[0].key, ops[0].packets, ops[0].instance);
        }
      }
      ThreadStable(d, ops[1..], id);
    }
  }
}
