/**
 The request cache as the driver stores it: a queue ordered by ID, a reverse index
 from connection instance to queued IDs, the requests being applied, and the thread
 IDs. `IndexExact` says the index is nothing but the queue seen by instance.
 */
module RequestCache {
  import opened Net
  import opened RequestSpec
  import opened RequestRuns

  datatype PendingIds = One(id: nat) | Multiple(ids: seq<nat>)

  function Ids(p: PendingIds): seq<nat> {
    match p case One(id) => [id] case Multiple(ids) => ids
  }

  type Index = map<nat, PendingIds>

  function Lookup(index: Index, instance: nat): seq<nat> {
    if instance in index then Ids(index[instance]) else []
  }

  /** The scan the index replaces: the queued IDs of one instance, in queue order. */
  function IdsOf(q: seq<Entry>, instance: nat): seq<nat> {
    if q == [] then [] else
      IdsOf(q[..|q| - 1], instance)
      + if q[|q| - 1].value.instance == Some(instance) then [q[|q| - 1].id] else []
  }

  ghost predicate IndexExact(q: seq<Entry>, index: Index) {
    && (forall i :: i in index ==> i != 0 && Ids(index[i]) != [])
    && (forall i :: i != 0 ==> Lookup(index, i) == IdsOf(q, i))
  }

  lemma {:induction false} IdsOfAppend(a: seq<Entry>, b: seq<Entry>, i: nat)
    ensures IdsOf(a + b, i) == IdsOf(a, i) + IdsOf(b, i)
  {
    if b == [] {
      assert a + b == a;
    } else {
      IdsOfAppend(a, b[..|b| - 1], i);
      assert (a + b)[..|a + b| - 1] == a + b[..|b| - 1];
    }
  }

  lemma {:induction false} IdsOfMembers(q: seq<Entry>, i: nat)
    ensures forall id :: id in IdsOf(q, i) <==> exists e :: e in q && e.id == id && e.value.instance == Some(i)
  {
    if q != [] {
      IdsOfMembers(q[..|q| - 1], i);
      assert q == q[..|q| - 1] + [q[|q| - 1]];
    }
  }

  lemma {:induction false} IdsOfOrdered(q: seq<Entry>, i: nat)
    requires Ordered(q)
    ensures forall j, k :: 0 <= j < k < |IdsOf(q, i)| ==> IdsOf(q, i)[j] < IdsOf(q, i)[k]
  {
    if q != [] {
      IdsOfOrdered(q[..|q| - 1], i);
      IdsOfMembers(q[..|q| - 1], i);
      var s := IdsOf(q[..|q| - 1], i);
      assert forall j :: 0 <= j < |s| ==> s[j] in s;
    }
  }

  /** Removing one claimed ID from its bucket (a binary search, then a shift). */
  function Without(s: seq<nat>, id: nat): seq<nat> {
    if s == [] then [] else if s[0] == id then s[1..] else [s[0]] + Without(s[1..], id)
  }

  lemma {:induction false} WithoutMiddle(a: seq<nat>, id: nat, b: seq<nat>)
    requires id !in a
    ensures Without(a + [id] + b, id) == a + b
  {
    if a == [] {
      assert a + [id] + b == [id] + b;
      assert a + b == b;
    } else {
      assert (a + [id] + b)[1..] == a[1..] + [id] + b;
      WithoutMiddle(a[1..], id, b);
      assert a + b == [a[0]] + (a[1..] + b);
    }
  }

  // ---- retirement by ID: how the loops below reach the partition -----------------

  function KeptById(q: seq<Entry>, done: set<nat>): seq<Entry> {
    if q == [] then [] else
      var e := q[|q| - 1];
      KeptById(q[..|q| - 1], done) + KeptOne(e, done)
  }

  function KeptOne(e: Entry, done: set<nat>): seq<Entry> {
    if e.id !in done then [e]
    else if Survives(e.value.packet, e.value.key) then [e.(value := e.value.(instance := None))]
    else []
  }

  function RemovedOne(e: Entry, done: set<nat>): seq<Entry> {
    if e.id in done && !Survives(e.value.packet, e.value.key) then [e] else []
  }

  function RemovedById(q: seq<Entry>, done: set<nat>): seq<Entry> {
    if q == [] then [] else RemovedById(q[..|q| - 1], done) + RemovedOne(q[|q| - 1], done)
  }

  lemma Assoc(a: seq<Entry>, b: seq<Entry>, c: seq<Entry>)
    ensures a + b + c == a + (b + c)
  {
  }

  lemma {:induction false} KeptByIdAppend(a: seq<Entry>, b: seq<Entry>, done: set<nat>)
    ensures KeptById(a + b, done) == KeptById(a, done) + KeptById(b, done)
  {
    if b == [] {
      assert a + b == a;
    } else {
      var init := b[..|b| - 1];
      KeptByIdAppend(a, init, done);
      assert (a + b)[..|a + b| - 1] == a + init;
      Assoc(KeptById(a, done), KeptById(init, done), KeptOne(b[|b| - 1], done));
    }
  }

  lemma {:induction false} RemovedByIdAppend(a: seq<Entry>, b: seq<Entry>, done: set<nat>)
    ensures RemovedById(a + b, done) == RemovedById(a, done) + RemovedById(b, done)
  {
    if b == [] {
      assert a + b == a;
    } else {
      var init := b[..|b| - 1];
      RemovedByIdAppend(a, init, done);
      assert (a + b)[..|a + b| - 1] == a + init;
      Assoc(RemovedById(a, done), RemovedById(init, done), RemovedOne(b[|b| - 1], done));
    }
  }

  lemma {:induction false} ByIdCongruent(q: seq<Entry>, d: set<nat>, e: set<nat>)
    requires forall x :: x in q ==> (x.id in d) == (x.id in e)
    ensures KeptById(q, d) == KeptById(q, e) && RemovedById(q, d) == RemovedById(q, e)
  {
    if q != [] { ByIdCongruent(q[..|q| - 1], d, e); }
  }

  lemma {:induction false} ByIdNone(q: seq<Entry>, done: set<nat>)
    requires forall x :: x in q ==> x.id !in done
    ensures KeptById(q, done) == q && RemovedById(q, done) == []
  {
    if q != [] {
      var init, e := q[..|q| - 1], q[|q| - 1];
      assert q == init + [e];
      assert e in q && KeptOne(e, done) == [e] && RemovedOne(e, done) == [];
      ByIdNone(init, done);
    }
  }

  lemma {:induction false} ByIdMembers(q: seq<Entry>, done: set<nat>)
    ensures forall x :: x in KeptById(q, done) ==> exists e :: e in q && e.id == x.id && x in KeptOne(e, done)
  {
    if q != [] {
      ByIdMembers(q[..|q| - 1], done);
      assert q == q[..|q| - 1] + [q[|q| - 1]];
    }
  }

  /** Retiring exactly the IDs bound to `s` is the partition by instance. */
  lemma {:induction false} ByIdIsPartition(q: seq<Entry>, done: set<nat>, s: set<nat>)
    requires forall x :: x in q ==> (x.id in done <==> BoundTo(x, s))
    ensures KeptById(q, done) == Kept(q, s) && RemovedById(q, done) == Removed(q, s)
  {
    if q != [] {
      ByIdIsPartition(q[..|q| - 1], done, s);
      var e := q[|q| - 1];
      assert e in q;
      assert Half(q, s, false) == Half(q[..|q| - 1], s, false) + if Discarded(e, s) then [] else [e];
      assert Kept(q, s) == Kept(q[..|q| - 1], s) + if Discarded(e, s) then [] else [AfterEnd(e, s)];
    }
  }

  lemma SplitById(q: seq<Entry>, at: nat, done: set<nat>)
    requires Ordered(q) && at < |q|
    requires forall d :: d in done ==> d <= q[at].id
    ensures KeptById(q, done) == KeptById(q[..at], done) + KeptOne(q[at], done) + q[at + 1..]
    ensures RemovedById(q, done) == RemovedById(q[..at], done) + RemovedOne(q[at], done)
  {
    var a, e, b := q[..at], q[at], q[at + 1..];
    assert q[..at + 1] == a + [e] && q[..at + 1][..at] == a;
    assert q == q[..at + 1] + b;
    KeptByIdAppend(q[..at + 1], b, done);
    RemovedByIdAppend(q[..at + 1], b, done);
    ByIdNone(b, done);
  }

  /** One more ID, larger than all handled so far, moves exactly its own entry. */
  lemma RetireOneMore(q: seq<Entry>, done: set<nat>, at: nat)
    requires Ordered(q) && at < |q|
    requires forall d :: d in done ==> d < q[at].id
    ensures KeptById(q, done) == KeptById(q[..at], done) + [q[at]] + q[at + 1..]
    ensures KeptById(q, done + {q[at].id}) == KeptById(q[..at], done) + KeptOne(q[at], {q[at].id}) + q[at + 1..]
    ensures RemovedById(q, done + {q[at].id}) == RemovedById(q, done) + RemovedOne(q[at], {q[at].id})
    ensures forall x :: x in KeptById(q[..at], done) ==> x.id < q[at].id
  {
    SplitById(q, at, done);
    SplitById(q, at, done + {q[at].id});
    ByIdCongruent(q[..at], done, done + {q[at].id});
    ByIdMembers(q[..at], done);
  }

  /** What retiring one ID does to the queue: detach it, hand it back, or nothing if it is not bound as expected. */
  function RetireOne(values: seq<Entry>, id: nat, instance: nat): (seq<Entry>, seq<Entry>) {
    match IndexOf(values, id)
    case None => (values, [])
    case Some(at) =>
      var e := values[at];
      if e.value.instance != Some(instance) then (values, [])
      else if Survives(e.value.packet, e.value.key) then
        (values[at := e.(value := e.value.(instance := None))], [])
      else (values[..at] + values[at + 1..], [e])
  }

  lemma IndexIs(a: seq<Entry>, e: Entry, b: seq<Entry>)
    requires (forall x :: x in a ==> x.id != e.id) && (forall x :: x in b ==> x.id != e.id)
    ensures IndexOf(a + [e] + b, e.id) == Some(|a|)
  {
    var q := a + [e] + b;
    assert q[|a|].id == e.id;
  }

  lemma {:induction false} HandledIsUnbound(q: seq<Entry>, done: set<nat>)
    ensures forall x :: x in KeptById(q, done) && x.id in done ==> x.value.instance == None
  {
    if q != [] { HandledIsUnbound(q[..|q| - 1], done); }
  }

  lemma RetireOneAt(a: seq<Entry>, e: Entry, b: seq<Entry>, instance: nat)
    requires (forall x :: x in a ==> x.id != e.id) && (forall x :: x in b ==> x.id != e.id)
    requires e.value.instance == Some(instance)
    ensures RetireOne(a + [e] + b, e.id, instance) == (a + KeptOne(e, {e.id}) + b, RemovedOne(e, {e.id}))
  {
    IndexIs(a, e, b);
    var v := a + [e] + b;
    var cut := e.(value := e.value.(instance := None));
    assert v[|a| := cut] == a + [cut] + b;
    assert v[..|a|] + v[|a| + 1..] == a + [] + b;
  }

  /** Retiring the next ID of an increasing list extends the set of handled IDs by it. */
  lemma RetireOneCorrect(q: seq<Entry>, done: set<nat>, id: nat, instance: nat)
    requires Ordered(q) && Located(q, id, instance)
    requires forall d :: d in done ==> d <= id
    ensures RetireOne(KeptById(q, done), id, instance).0 == KeptById(q, done + {id})
    ensures RemovedById(q, done) + RetireOne(KeptById(q, done), id, instance).1 == RemovedById(q, done + {id})
  {
    if id in done {
      assert done + {id} == done;
      HandledIsUnbound(q, done);
      assert RetireOne(KeptById(q, done), id, instance) == (KeptById(q, done), []);
    } else {
      var p :| 0 <= p < |q| && q[p].id == id && q[p].value.instance == Some(instance);
      RetireOneMore(q, done, p);
      RetireOneAt(KeptById(q[..p], done), q[p], q[p + 1..], instance);
    }
  }

  ghost predicate Located(q: seq<Entry>, id: nat, instance: nat) {
    exists p :: 0 <= p < |q| && q[p].id == id && q[p].value.instance == Some(instance)
  }

  // ---- keeping the index exact -----------------------------------------------------

  function AddToIndex(index: Index, instance: Option<nat>, id: nat): Index {
    if instance.None? || instance.value == 0 then index
    else if instance.value in index then
      index[instance.value := match index[instance.value]
                              case One(previous) => Multiple([previous, id])
                              case Multiple(ids) => Multiple(ids + [id])]
    else index[instance.value := One(id)]
  }

  /** An emptied bucket leaves the index; a bucket shrunk to one ID stays a vector. */
  function RemoveFromIndex(index: Index, instance: Option<nat>, id: nat): Index {
    if instance.None? || instance.value == 0 || instance.value !in index then index
    else
      match index[instance.value]
      case One(existing) => if existing == id then index - {instance.value} else index
      case Multiple(ids) =>
        var rest := Without(ids, id);
        if rest == [] then index - {instance.value} else index[instance.value := Multiple(rest)]
  }

  lemma CaptureNext(threads: map<nat, nat>, added: seq<Entry>, e: Entry, thread: nat)
    ensures Capture(threads, added + [e], thread)
         == if thread == 0 then threads else Capture(threads, added, thread)[e.id := thread]
  {
    IdSetAppend(added, [e]);
    assert IdSet([e]) == {e.id} by { assert [e][0].id in IdSet([e]); }
  }

  lemma AddKeepsExact(q: seq<Entry>, index: Index, e: Entry)
    requires IndexExact(q, index)
    ensures IndexExact(q + [e], AddToIndex(index, e.value.instance, e.id))
  {
    var more := AddToIndex(index, e.value.instance, e.id);
    forall i | i != 0 ensures Lookup(more, i) == IdsOf(q + [e], i) {
      assert (q + [e])[..|q|] == q;
      assert Lookup(index, i) == IdsOf(q, i);
    }
  }

  /** New entries carry these IDs and this instance. */
  ghost predicate Numbered(added: seq<Entry>, ids: seq<nat>, instance: Option<nat>) {
    |added| == |ids| && forall k :: 0 <= k < |ids| ==> added[k].id == ids[k] && added[k].value.instance == instance
  }

  lemma NumberedNew(first: nat, key: Key, packets: seq<Packet>, instance: Option<nat>)
    ensures Numbered(NewEntries(first, key, packets, instance), seq(|packets|, i => first + i), instance)
  {
  }

  lemma IndexNext(before: seq<Entry>, added: seq<Entry>, k: nat, index: Index)
    requires k < |added| && IndexExact(before + added[..k], index)
    ensures IndexExact(before + added[..k + 1], AddToIndex(index, added[k].value.instance, added[k].id))
  {
    AddKeepsExact(before + added[..k], index, added[k]);
    assert before + added[..k] + [added[k]] == before + added[..k + 1];
  }

  lemma {:induction false} AbsentId(q: seq<Entry>, i: nat, id: nat)
    requires forall x :: x in q ==> x.id != id
    ensures id !in IdsOf(q, i)
  {
    if q != [] { AbsentId(q[..|q| - 1], i, id); }
  }

  lemma SameId(q: seq<Entry>, x: Entry, y: Entry)
    requires Ordered(q) && x in q && y in q && x.id == y.id
    ensures x == y
  {
  }

  lemma IdsOfRemove(q: seq<Entry>, at: nat, i: nat)
    requires Ordered(q) && at < |q|
    ensures IdsOf(q[..at] + q[at + 1..], i)
         == if q[at].value.instance == Some(i) then Without(IdsOf(q, i), q[at].id) else IdsOf(q, i)
  {
    var a, e, b := q[..at], q[at], q[at + 1..];
    var upto := q[..at + 1];
    assert upto[..at] == a && upto[at] == e;
    assert IdsOf(upto, i) == IdsOf(a, i) + if e.value.instance == Some(i) then [e.id] else [];
    assert q == upto + b;
    IdsOfAppend(upto, b, i);
    IdsOfAppend(a, b, i);
    if e.value.instance == Some(i) {
      AbsentId(a, i, e.id);
      WithoutMiddle(IdsOf(a, i), e.id, IdsOf(b, i));
    } else {
      assert IdsOf(upto, i) == IdsOf(a, i);
    }
  }

  /** One bucket after the removal of one entry. */
  lemma RemoveLookup(index: Index, e: Entry, i: nat)
    requires i != 0
    ensures var less := RemoveFromIndex(index, e.value.instance, e.id);
            if e.value.instance == Some(i) && i in index
            then (i in less <==> Without(Ids(index[i]), e.id) != []) && Lookup(less, i) == Without(Ids(index[i]), e.id)
            else (i in less <==> i in index) && Lookup(less, i) == Lookup(index, i)
  {
  }

  lemma RemoveKeepsExact(q: seq<Entry>, index: Index, at: nat)
    requires Ordered(q) && at < |q| && IndexExact(q, index)
    ensures IndexExact(q[..at] + q[at + 1..], RemoveFromIndex(index, q[at].value.instance, q[at].id))
  {
    var e := q[at];
    var less := RemoveFromIndex(index, e.value.instance, e.id);
    forall i | i != 0
      ensures Lookup(less, i) == IdsOf(q[..at] + q[at + 1..], i)
      ensures i in less ==> Ids(less[i]) != []
    {
      assert Lookup(index, i) == IdsOf(q, i);
      IdsOfRemove(q, at, i);
      RemoveLookup(index, e, i);
      if e.value.instance == Some(i) {
        IdsOfMembers(q, i);
        assert e in q && e.id in IdsOf(q, i);
      }
    }
    assert 0 !in less;
  }

  lemma KeptUnfold(q: seq<Entry>, s: set<nat>)
    requires q != []
    ensures Kept(q, s) == Kept(q[..|q| - 1], s)
                        + if Discarded(q[|q| - 1], s) then [] else [AfterEnd(q[|q| - 1], s)]
  {
  }

  lemma {:induction false} IdsOfKept(q: seq<Entry>, s: set<nat>, i: nat)
    ensures IdsOf(Kept(q, s), i) == if i in s then [] else IdsOf(q, i)
  {
    if q != [] {
      IdsOfKept(q[..|q| - 1], s, i);
      KeptUnfold(q, s);
      var e := q[|q| - 1];
      if !Discarded(e, s) {
        assert Kept(q, s)[..|Kept(q, s)| - 1] == Kept(q[..|q| - 1], s);
      } else {
        assert Kept(q, s) == Kept(q[..|q| - 1], s);
      }
    }
  }

  /** Dropping the buckets of `s` matches retiring `s` from the queue. */
  lemma RetireKeepsExact(q: seq<Entry>, index: Index, s: set<nat>)
    requires IndexExact(q, index) && 0 !in s
    ensures IndexExact(Kept(q, s), index - s)
  {
    forall i | i != 0 ensures Lookup(index - s, i) == IdsOf(Kept(q, s), i) {
      IdsOfKept(q, s, i);
      assert Lookup(index, i) == IdsOf(q, i);
    }
  }

  // ---- the affected requests of a sorted list of instances -------------------------

  function Pairs(ids: seq<nat>, instance: nat): seq<(nat, nat)> {
    seq(|ids|, i requires 0 <= i < |ids| => (ids[i], instance))
  }

  function Collect(index: Index, instances: seq<nat>): seq<(nat, nat)> {
    if instances == [] then [] else
      var n := |instances| - 1;
      Collect(index, instances[..n])
      + if n > 0 && instances[n] == instances[n - 1] then [] else Pairs(Lookup(index, instances[n]), instances[n])
  }

  lemma {:induction false} CollectMembers(index: Index, instances: seq<nat>)
    ensures forall p :: p in Collect(index, instances) <==> p.1 in instances && p.0 in Lookup(index, p.1)
  {
    if instances != [] {
      var n := |instances| - 1;
      CollectMembers(index, instances[..n]);
      assert instances == instances[..n] + [instances[n]];
      var bucket := Lookup(index, instances[n]);
      PairsMembers(bucket, instances[n]);
      if n > 0 && instances[n] == instances[n - 1] {
        assert instances[n] == instances[..n][n - 1];
      }
    }
  }

  predicate ById(pairs: seq<(nat, nat)>) {
    forall i, j :: 0 <= i < j < |pairs| ==> pairs[i].0 <= pairs[j].0
  }

  function InsertPair(pairs: seq<(nat, nat)>, p: (nat, nat)): seq<(nat, nat)> {
    if pairs == [] || p.0 <= pairs[0].0 then [p] + pairs else [pairs[0]] + InsertPair(pairs[1..], p)
  }

  /** Stands for the library sort: an ordered rearrangement. */
  function SortById(pairs: seq<(nat, nat)>): seq<(nat, nat)> {
    if pairs == [] then [] else InsertPair(SortById(pairs[1..]), pairs[0])
  }

  lemma {:induction false} InsertPairSorted(pairs: seq<(nat, nat)>, p: (nat, nat))
    requires ById(pairs)
    ensures ById(InsertPair(pairs, p))
    ensures forall x :: x in InsertPair(pairs, p) <==> x in pairs || x == p
  {
    if pairs != [] && p.0 > pairs[0].0 {
      InsertPairSorted(pairs[1..], p);
      var r := InsertPair(pairs[1..], p);
      assert pairs == [pairs[0]] + pairs[1..];
      assert forall i :: 0 <= i < |r| ==> r[i] in r;
    }
  }

  lemma {:induction false} SortByIdSorts(pairs: seq<(nat, nat)>)
    ensures ById(SortById(pairs))
    ensures forall x :: x in SortById(pairs) <==> x in pairs
  {
    if pairs != [] {
      SortByIdSorts(pairs[1..]);
      InsertPairSorted(SortById(pairs[1..]), pairs[0]);
      assert pairs == [pairs[0]] + pairs[1..];
    }
  }

  function PairIds(pairs: seq<(nat, nat)>): set<nat> {
    set p | p in pairs :: p.0
  }

  lemma PairIdsNext(pairs: seq<(nat, nat)>, k: nat)
    requires k < |pairs| && ById(pairs)
    ensures PairIds(pairs[..k + 1]) == PairIds(pairs[..k]) + {pairs[k].0}
    ensures forall d :: d in PairIds(pairs[..k]) ==> d <= pairs[k].0
    ensures pairs[k] in pairs
  {
    assert pairs[..k + 1] == pairs[..k] + [pairs[k]];
  }

  function InstanceSet(instances: seq<nat>): set<nat> {
    (set i | i in instances) - {0}
  }

  lemma PairEntry(q: seq<Entry>, index: Index, instance: nat, id: nat)
    requires IndexExact(q, index)
    requires id in Lookup(index, instance)
    ensures instance != 0
    ensures exists x :: x in q && x.id == id && x.value.instance == Some(instance)
  {
    IdsOfMembers(q, instance);
    assert Lookup(index, instance) == IdsOf(q, instance);
  }

  lemma EntryPair(q: seq<Entry>, index: Index, x: Entry)
    requires IndexExact(q, index) && x in q && x.value.instance.Some? && x.value.instance.value != 0
    ensures x.id in Lookup(index, x.value.instance.value)
  {
    var i := x.value.instance.value;
    IdsOfMembers(q, i);
    assert Lookup(index, i) == IdsOf(q, i);
  }

  ghost predicate Affected(index: Index, instances: seq<nat>, pairs: seq<(nat, nat)>) {
    forall p :: p in pairs <==> p.1 in instances && p.0 in Lookup(index, p.1)
  }

  lemma PairIsBound(q: seq<Entry>, index: Index, instances: seq<nat>, pairs: seq<(nat, nat)>, x: Entry)
    requires Ordered(q) && IndexExact(q, index) && Affected(index, instances, pairs) && x in q && x.id in PairIds(pairs)
    ensures BoundTo(x, InstanceSet(instances))
  {
    var p :| p in pairs && p.0 == x.id;
    PairEntry(q, index, p.1, p.0);
    var y :| y in q && y.id == p.0 && y.value.instance == Some(p.1);
    SameId(q, x, y);
  }

  /** Whatever order the pairs come in, their IDs are those the partition discards or detaches. */
  lemma AffectedIds(q: seq<Entry>, index: Index, instances: seq<nat>, pairs: seq<(nat, nat)>, x: Entry)
    requires Ordered(q) && IndexExact(q, index) && Affected(index, instances, pairs) && x in q
    ensures x.id in PairIds(pairs) <==> BoundTo(x, InstanceSet(instances))
  {
    if x.id in PairIds(pairs) {
      PairIsBound(q, index, instances, pairs, x);
    } else if BoundTo(x, InstanceSet(instances)) {
      BoundIsPair(q, index, instances, pairs, x);
    }
  }

  lemma BoundIsPair(q: seq<Entry>, index: Index, instances: seq<nat>, pairs: seq<(nat, nat)>, x: Entry)
    requires IndexExact(q, index) && Affected(index, instances, pairs) && x in q && BoundTo(x, InstanceSet(instances))
    ensures x.id in PairIds(pairs)
  {
    EntryPair(q, index, x);
    assert (x.id, x.value.instance.value) in pairs;
  }

  lemma ThreadsGone(threads: map<nat, nat>, a: seq<Entry>, b: seq<Entry>)
    ensures (threads - IdSet(a)) - IdSet(b) == threads - IdSet(a + b)
  {
    IdSetAppend(a, b);
  }

  /** Taking the only listed bucket takes all listed buckets. */
  lemma OneBucketGone(index: Index, instance: nat, instances: seq<nat>)
    requires 0 !in index && instance in instances
    requires forall i :: i in instances && i in index ==> i == instance
    ensures index - {instance} == index - InstanceSet(instances)
  {
  }

  lemma BucketGone(index: Index, instances: seq<nat>, k: nat)
    requires 0 !in index && k < |instances|
    ensures (index - InstanceSet(instances[..k])) - {instances[k]} == index - InstanceSet(instances[..k + 1])
  {
    CollectNext(index, instances, k);
  }

  lemma BucketOrdered(q: seq<Entry>, index: Index, instance: nat)
    requires Ordered(q) && IndexExact(q, index)
    ensures ById(Pairs(Lookup(index, instance), instance))
  {
    assert 0 !in index;
    if instance != 0 {
      assert Lookup(index, instance) == IdsOf(q, instance);
      IdsOfOrdered(q, instance);
    }
  }

  lemma CollectNext(index: Index, instances: seq<nat>, k: nat)
    requires k < |instances|
    ensures Collect(index, instances[..k + 1])
         == Collect(index, instances[..k])
            + if k > 0 && instances[k] == instances[k - 1] then [] else Pairs(Lookup(index, instances[k]), instances[k])
    ensures InstanceSet(instances[..k + 1]) == InstanceSet(instances[..k]) + ({instances[k]} - {0})
  {
    assert instances[..k + 1][..k] == instances[..k];
    assert instances[..k + 1] == instances[..k] + [instances[k]];
  }

  lemma PairsMembers(ids: seq<nat>, instance: nat)
    ensures forall p :: p in Pairs(ids, instance) <==> p.1 == instance && p.0 in ids
  {
    forall id | id in ids ensures (id, instance) in Pairs(ids, instance) {
      var k :| 0 <= k < |ids| && ids[k] == id;
      assert Pairs(ids, instance)[k] == (id, instance);
    }
  }

  lemma CollectNonempty(index: Index, instances: seq<nat>, i: nat)
    requires i in instances && i in index && Ids(index[i]) != []
    ensures Collect(index, instances) != []
  {
    CollectMembers(index, instances);
    assert (Ids(index[i])[0], i) in Collect(index, instances);
  }

  lemma NoBuckets(index: Index, instances: seq<nat>, q: seq<Entry>)
    requires Collect(index, instances) == [] && IndexExact(q, index)
    ensures forall i :: i in instances ==> i !in index
  {
    forall i | i in instances ensures i !in index {
      if i in index { CollectNonempty(index, instances, i); }
    }
  }

  lemma SomeBucket(index: Index, instances: seq<nat>)
    requires Collect(index, instances) != []
    ensures exists k :: 0 <= k < |instances| && instances[k] in index
  {
    CollectMembers(index, instances);
    var p := Collect(index, instances)[0];
    assert p in Collect(index, instances);
  }

  lemma NothingToRetire(q: seq<Entry>, index: Index, instances: seq<nat>)
    requires Ordered(q) && IndexExact(q, index)
    requires forall i :: i in instances ==> i !in index
    ensures Kept(q, InstanceSet(instances)) == q && Removed(q, InstanceSet(instances)) == []
  {
    AffectedPartition(q, index, instances, []);
    ByIdNone(q, {});
    assert PairIds([]) == {};
  }

  /** With one affected request in all, the first instance found in the index holds exactly that request. */
  lemma OnlyBucket(index: Index, instances: seq<nat>, instance: nat)
    requires |Collect(index, instances)| == 1
    requires instance in instances && instance in index && Ids(index[instance]) != []
    ensures Pairs(Lookup(index, instance), instance) == Collect(index, instances)
    ensures forall i :: i in instances && i in index && Ids(index[i]) != [] ==> i == instance
  {
    CollectMembers(index, instances);
    var all := Collect(index, instances);
    assert all == [all[0]];
    forall i | i in instances && i in index && Ids(index[i]) != [] ensures i == all[0].1 {
      assert (Ids(index[i])[0], i) in all;
    }
    var bucket := Lookup(index, instance);
    forall k | 0 <= k < |bucket| ensures (bucket[k], instance) == all[0] {
      assert (bucket[k], instance) in all;
    }
  }

  lemma AffectedPartition(q: seq<Entry>, index: Index, instances: seq<nat>, pairs: seq<(nat, nat)>)
    requires Ordered(q) && IndexExact(q, index) && Affected(index, instances, pairs)
    ensures KeptById(q, PairIds(pairs)) == Kept(q, InstanceSet(instances))
    ensures RemovedById(q, PairIds(pairs)) == Removed(q, InstanceSet(instances))
    ensures forall p :: p in pairs ==> Located(q, p.0, p.1)
  {
    forall x | x in q ensures x.id in PairIds(pairs) <==> BoundTo(x, InstanceSet(instances)) {
      AffectedIds(q, index, instances, pairs, x);
    }
    ByIdIsPartition(q, PairIds(pairs), InstanceSet(instances));
    forall p | p in pairs ensures Located(q, p.0, p.1) {
      PairEntry(q, index, p.1, p.0);
    }
  }

  class IdCache {
    var values: seq<Entry>
    var pendingByInstance: Index
    var active: map<nat, Identity>
    var threads: map<nat, nat>
    var nextId: nat

    function View(): Cache
      reads this
    {
      Cache(values, active, threads, nextId)
    }

    ghost predicate Valid()
      reads this
    {
      RequestSpec.Valid(View()) && IndexExact(values, pendingByInstance)
    }

    constructor ()
      ensures Valid() && View() == EMPTY
    {
      values, pendingByInstance, active, threads, nextId := [], map[], map[], map[], 1;
    }

    /** Gives every packet of one indication its own entry and ID. */
    method PushPackets(key: Key, packets: seq<Packet>, instance: Option<nat>) returns (ids: seq<nat>)
      modifies this`values, this`nextId
      ensures SameFamily(key) ==>
                && values == old(values) + NewEntries(old(nextId), key, packets, instance)
                && ids == seq(|packets|, i => old(nextId) + i)
      ensures !SameFamily(key) ==> values == old(values) && ids == []
      ensures nextId == old(nextId) + |ids|
    {
      ids := [];
      for k := 0 to |packets|
        invariant SameFamily(key) ==>
                    && values == old(values) + NewEntries(old(nextId), key, packets[..k], instance)
                    && ids == seq(k, i => old(nextId) + i)
        invariant !SameFamily(key) ==> values == old(values) && ids == []
        invariant nextId == old(nextId) + |ids|
      {
        if SameFamily(key) {
          assert NewEntries(old(nextId), key, packets[..k + 1], instance)
              == NewEntries(old(nextId), key, packets[..k], instance)
                 + [Entry(nextId, Pending(key, packets[k], instance))];
          values := values + [Entry(nextId, Pending(key, packets[k], instance))];
          ids := ids + [nextId];
          nextId := nextId + 1;
        }
      }
      assert packets[..|packets|] == packets;
    }

    /** Enters the newly queued requests in the index and captures their thread. */
    method IndexRequests(ghost before: seq<Entry>, ghost added: seq<Entry>, ids: seq<nat>, instance: Option<nat>,
                         thread: nat)
      requires IndexExact(before, pendingByInstance) && Numbered(added, ids, instance)
      modifies this`pendingByInstance, this`threads
      ensures IndexExact(before + added, pendingByInstance)
      ensures threads == Capture(old(threads), added, thread)
    {
      assert before + added[..0] == before;
      for k := 0 to |ids|
        invariant IndexExact(before + added[..k], pendingByInstance)
        invariant threads == Capture(old(threads), added[..k], thread)
      {
        IndexNext(before, added, k, pendingByInstance);
        CaptureNext(old(threads), added[..k], added[k], thread);
        pendingByInstance := AddToIndex(pendingByInstance, instance, ids[k]);
        if thread != 0 {
          threads := threads[ids[k] := thread];
        }
        assert added[..k + 1] == added[..k] + [added[k]];
      }
      assert added[..|ids|] == added;
    }

    /** Queues one request per packet and returns the new IDs in order. */
    method Push(key: Key, packets: seq<Packet>, instance: Option<nat>, thread: nat) returns (ids: seq<nat>)
      requires Valid()
      modifies this
      ensures Valid() && View() == RequestSpec.Push(old(View()), key, packets, instance, thread)
      ensures ids == if SameFamily(key) then seq(|packets|, i => old(nextId) + i) else []
    {
      ghost var next := RequestSpec.Push(View(), key, packets, instance, thread);
      PushValid(View(), key, packets, instance, thread);
      ghost var added := if SameFamily(key) then NewEntries(nextId, key, packets, instance) else [];
      NumberedNew(nextId, key, packets, instance);
      ids := PushPackets(key, packets, instance);
      assert values == old(values) + added;
      IndexRequests(old(values), added, ids, instance, thread);
      assert View() == next;
    }

    /** Zero stands for "no thread captured". */
    method GetThreadId(id: nat) returns (thread: nat)
      requires Valid()
      ensures thread != 0 <==> id in View().threads
      ensures id in View().threads ==> thread == View().threads[id]
    {
      thread := if id in threads then threads[id] else 0;
    }

    method WasIssuedId(id: nat) returns (issued: bool)
      requires Valid()
      ensures issued <==> !StatusOf(View(), id).Unissued?
    {
      issued := id != 0 && id < nextId;
      assert id in IdSet(values) ==> 1 <= id < nextId;
    }

    method PopId(id: nat) returns (packet: Option<Pending>)
      requires Valid()
      modifies this
      ensures Valid()
      ensures (packet, View()) == Claim(old(View()), id)
    {
      ClaimValid(View(), id);
      match IndexOf(values, id) {
        case None => packet := None;
        case Some(at) =>
          var value := values[at].value;
          RemoveKeepsExact(values, pendingByInstance, at);
          values := values[..at] + values[at + 1..];
          pendingByInstance := RemoveFromIndex(pendingByInstance, value.instance, id);
          active := active[id := Identity(value.key, value.instance)];
          packet := Some(value);
      }
    }

    method FinishId(id: nat)
      requires Valid()
      modifies this`active, this`threads
      ensures Valid() && View() == Finish(old(View()), id)
      ensures id !in active && id !in threads
      ensures forall k :: k != id && k in old(active) ==> k in active && active[k] == old(active)[k]
      ensures forall k :: k != id && k in old(threads) ==> k in threads && threads[k] == old(threads)[k]
    {
      active := active - {id};
      threads := threads - {id};
    }

    method PopAll() returns (drained: seq<Entry>)
      requires Valid()
      modifies this
      ensures Valid() && View() == Drain(old(View())) && drained == old(values)
      ensures values == [] && threads == map[] && active == old(active) && nextId == old(nextId)
    {
      drained := values;
      values, pendingByInstance, threads := [], map[], map[];
    }

    /**
     The snapshot taken by a closing TCP endpoint. An ordinary endpoint asks the
     index; only a loopback-like one scans the queue. Both give the full scan.
     */
    method TcpEndpointRequestIds(key: Key, instance: nat) returns (ids: set<nat>)
      requires Valid()
      ensures instance != 0 || IsLoopbackLike(key) ==> ids == EndpointRequests(View(), key, instance)
      ensures ids <= EndpointRequests(View(), key, instance)
    {
      if IsLoopbackLike(key) {
        ids := set e | e in values && RequestMatches(key, instance, e.value.key, e.value.instance) :: e.id;
      } else {
        var bucket := Lookup(pendingByInstance, instance);
        IdsOfMembers(values, instance);
        assert instance == 0 ==> bucket == [];
        assert instance != 0 ==> bucket == IdsOf(values, instance);
        ids := set id | id in bucket;
      }
      ids := ids + set id | id in active && RequestMatches(key, instance, active[id].key, active[id].instance);
    }

    /** A survivor is detached in place; any other request leaves the queue and forgets its thread. */
    method RetirePendingId(id: nat, instance: nat) returns (gone: seq<Entry>)
      modifies this`values, this`threads
      ensures (values, gone) == RetireOne(old(values), id, instance)
      ensures threads == old(threads) - IdSet(gone)
    {
      gone := [];
      match IndexOf(values, id) {
        case None =>
        case Some(at) =>
          var e := values[at];
          if e.value.instance == Some(instance) {
            if Survives(e.value.packet, e.value.key) {
              values := values[at := e.(value := e.value.(instance := None))];
            } else {
              values := values[..at] + values[at + 1..];
              threads := threads - {id};
              gone := [e];
              assert IdSet(gone) == {id} by { InIdSet(gone); }
            }
          }
      }
    }

    /** Handles pairs of ID and instance in increasing ID order. */
    method RetireInOrder(pairs: seq<(nat, nat)>) returns (removed: seq<Entry>)
      requires Ordered(values) && ById(pairs)
      requires forall p :: p in pairs ==> Located(values, p.0, p.1)
      modifies this`values, this`threads
      ensures values == KeptById(old(values), PairIds(pairs))
      ensures removed == RemovedById(old(values), PairIds(pairs))
      ensures threads == old(threads) - IdSet(removed)
    {
      ghost var q := values;
      removed := [];
      ByIdNone(q, {});
      assert PairIds(pairs[..0]) == {};
      for k := 0 to |pairs|
        invariant values == KeptById(q, PairIds(pairs[..k]))
        invariant removed == RemovedById(q, PairIds(pairs[..k]))
        invariant threads == old(threads) - IdSet(removed)
      {
        ghost var done := PairIds(pairs[..k]);
        PairIdsNext(pairs, k);
        RetireOneCorrect(q, done, pairs[k].0, pairs[k].1);
        var gone := RetirePendingId(pairs[k].0, pairs[k].1);
        ThreadsGone(old(threads), removed, gone);
        removed := removed + gone;
      }
      assert pairs[..|pairs|] == pairs;
    }

    /** Retires the affected requests once their buckets have left the index. */
    method RetireAffected(pairs: seq<(nat, nat)>, ghost index: Index, ghost instances: seq<nat>)
      returns (removed: seq<Entry>)
      requires RequestSpec.Valid(View()) && IndexExact(values, index)
      requires Affected(index, instances, pairs) && ById(pairs)
      requires pendingByInstance == index - InstanceSet(instances)
      modifies this`values, this`threads
      ensures Valid() && View() == Retire(old(View()), InstanceSet(instances))
      ensures removed == Removed(old(values), InstanceSet(instances))
    {
      ghost var q, s := values, InstanceSet(instances);
      AffectedPartition(q, index, instances, pairs);
      RetireValid(View(), s);
      RetireKeepsExact(q, index, s);
      removed := RetireInOrder(pairs);
    }

    /** How many queued requests the listed instances hold, counting a repeated instance once. */
    method CountPending(instances: seq<nat>) returns (count: nat)
      ensures count == |Collect(pendingByInstance, instances)|
    {
      count := 0;
      for k := 0 to |instances|
        invariant count == |Collect(pendingByInstance, instances[..k])|
      {
        CollectNext(pendingByInstance, instances, k);
        if k == 0 || instances[k] != instances[k - 1] {
          count := count + |Lookup(pendingByInstance, instances[k])|;
        }
      }
      assert instances[..|instances|] == instances;
    }

    /** Takes one bucket out of the index and retires its requests; no other listed instance has any. */
    method RetireBucket(instance: nat, ghost instances: seq<nat>) returns (removed: seq<Entry>)
      requires Valid() && instance in instances
      requires forall i :: i in instances && i in pendingByInstance ==> i == instance
      modifies this`values, this`threads, this`pendingByInstance
      ensures Valid() && View() == Retire(old(View()), InstanceSet(instances))
      ensures removed == Removed(old(values), InstanceSet(instances))
    {
      ghost var index := pendingByInstance;
      var bucket := Pairs(Lookup(pendingByInstance, instance), instance);
      BucketOrdered(values, index, instance);
      PairsMembers(Lookup(index, instance), instance);
      pendingByInstance := pendingByInstance - {instance};
      OneBucketGone(index, instance, instances);
      removed := RetireAffected(bucket, index, instances);
    }

    /** The general case: requests of several instances interleave, so their IDs are sorted first. */
    method RetireSeveral(instances: seq<nat>) returns (removed: seq<Entry>)
      requires Valid()
      requires forall i, j :: 0 <= i < j < |instances| ==> instances[i] <= instances[j]
      modifies this`values, this`threads, this`pendingByInstance
      ensures Valid() && View() == Retire(old(View()), InstanceSet(instances))
      ensures removed == Removed(old(values), InstanceSet(instances))
    {
      ghost var index := pendingByInstance;
      var pairs := [];
      for k := 0 to |instances|
        invariant pairs == Collect(index, instances[..k])
        invariant pendingByInstance == index - InstanceSet(instances[..k])
        invariant unchanged(`values) && unchanged(`threads)
      {
        CollectNext(index, instances, k);
        if k == 0 || instances[k] != instances[k - 1] {
          assert instances[k] !in instances[..k];
          assert Lookup(pendingByInstance, instances[k]) == Lookup(index, instances[k]);
          pairs := pairs + Pairs(Lookup(pendingByInstance, instances[k]), instances[k]);
          BucketGone(index, instances, k);
          pendingByInstance := pendingByInstance - {instances[k]};
        } else {
          assert instances[k - 1] == instances[..k][k - 1];
        }
      }
      assert instances[..|instances|] == instances;
      CollectMembers(index, instances);
      SortByIdSorts(pairs);
      removed := RetireAffected(SortById(pairs), index, instances);
    }

    /**
     Retires every queued request of the given instances. One instance takes its bucket
     directly, a single affected request is found without sorting, and only the general
     case collects and sorts IDs. All paths are the same partition of the queue.
     */
    method RetireConnectionInstances(instances: seq<nat>) returns (removed: seq<Entry>)
      requires Valid()
      requires forall i, j :: 0 <= i < j < |instances| ==> instances[i] <= instances[j]
      modifies this`values, this`threads, this`pendingByInstance
      ensures Valid() && View() == Retire(old(View()), InstanceSet(instances))
      ensures removed == Removed(old(values), InstanceSet(instances))
    {
      if |instances| == 1 {
        removed := RetireBucket(instances[0], instances);
        return;
      }
      var count := CountPending(instances);
      if count == 0 {
        NoBuckets(pendingByInstance, instances, values);
        NothingToRetire(values, pendingByInstance, instances);
        removed := [];
        return;
      }
      if count == 1 {
        var at := 0;
        SomeBucket(pendingByInstance, instances);
        while instances[at] !in pendingByInstance
          invariant at < |instances|
          invariant forall j :: 0 <= j < at ==> instances[j] !in pendingByInstance
          decreases |instances| - at
        {
          at := at + 1;
        }
        OnlyBucket(pendingByInstance, instances, instances[at]);
        removed := RetireBucket(instances[at], instances);
        return;
      }
      removed := RetireSeveral(instances);
    }
  }
}
