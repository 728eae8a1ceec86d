/**
 The adaptive index: one bucket inline until a group has two remote endpoints, one
 connection inline until a bucket has two generations.
 */
module ConnectionIndex {
  import opened Net
  import opened ConnectionTable
  import opened ConnectionRuns

  datatype Bucket = One(conn: Conn) | Multiple(conns: seq<Conn>)

  /** An ordered tree is the sequence of its entries in key order. */
  datatype Slot = Slot(endpoint: Endpoint, bucket: Bucket)

  datatype Remotes = Nothing | Single(bucket: Bucket) | Many(slots: seq<Slot>)

  function Items(b: Bucket): seq<Conn> {
    match b case One(c) => [c] case Multiple(cs) => cs
  }

  /** Every generation in a bucket shares its endpoint, and a vector is kept only for two or more. */
  predicate BucketOk(b: Bucket, e: Endpoint) {
    (b.Multiple? ==> |b.conns| >= 2) && forall c :: c in Items(b) ==> EndpointOf(c.key) == e
  }

  function BucketEndpoint(b: Bucket): Endpoint {
    match b
    case One(c) => EndpointOf(c.key)
    case Multiple(cs) => if cs == [] then Endpoint(0, 0) else EndpointOf(cs[0].key)
  }

  ghost predicate SlotsOk(s: seq<Slot>) {
    && (forall i :: 0 <= i < |s| ==> BucketOk(s[i].bucket, s[i].endpoint))
    && (forall i, j :: 0 <= i < j < |s| ==> Below(s[i].endpoint, s[j].endpoint))
  }

  function Slots(r: Remotes): seq<Slot> {
    match r case Nothing => [] case Single(b) => [Slot(BucketEndpoint(b), b)] case Many(s) => s
  }

  /** The representation that goes with a number of endpoints. */
  function Rebuild(s: seq<Slot>): Remotes {
    if s == [] then Nothing else if |s| == 1 then Single(s[0].bucket) else Many(s)
  }

  ghost predicate RemotesOk(r: Remotes) {
    SlotsOk(Slots(r)) && (r.Many? ==> |r.slots| >= 2)
  }

  function FlatSlots(s: seq<Slot>): seq<Conn> {
    if s == [] then [] else Items(s[0].bucket) + FlatSlots(s[1..])
  }

  function Flat(r: Remotes): seq<Conn> {
    FlatSlots(Slots(r))
  }

  lemma RebuildSlots(s: seq<Slot>)
    requires SlotsOk(s)
    ensures Slots(Rebuild(s)) == s && RemotesOk(Rebuild(s))
  {
    if |s| == 1 {
      assert Items(s[0].bucket)[0] in Items(s[0].bucket);
    }
  }

  // ---- lists in two parts ------------------------------------------------------------------

  lemma {:induction false} FirstConcat(a: seq<Conn>, b: seq<Conn>, q: Query)
    ensures First(a + b, q) == if First(a, q).Some? then First(a, q) else First(b, q)
  {
    if a == [] {
      assert a + b == b;
    } else {
      assert (a + b)[1..] == a[1..] + b;
      FirstConcat(a[1..], b, q);
    }
  }

  lemma {:induction false} EditConcat(a: seq<Conn>, b: seq<Conn>, q: Query, e: Edit)
    ensures EditFirst(a + b, q, e) == if First(a, q).Some? then EditFirst(a, q, e) + b else a + EditFirst(b, q, e)
  {
    if a == [] {
      assert a + b == b;
    } else {
      assert (a + b)[1..] == a[1..] + b;
      if Hits(q, a[0]) {
        Joined(Apply(e, a[0]), a[1..], b);
      } else {
        EditConcat(a[1..], b, q, e);
        Joined(a[0], EditFirst(a[1..], q, e), b);
        Joined(a[0], a[1..], EditFirst(b, q, e));
        assert a == [a[0]] + a[1..];
      }
    }
  }

  lemma {:induction false} EndConcat(a: seq<Conn>, b: seq<Conn>, s: Selection, now: nat)
    ensures EndAll(a + b, s, now) == EndAll(a, s, now) + EndAll(b, s, now)
  {
    if a == [] {
      assert a + b == b;
    } else {
      assert (a + b)[1..] == a[1..] + b;
      EndConcat(a[1..], b, s, now);
      Joined(EndIf(a[0], s, now), EndAll(a[1..], s, now), EndAll(b, s, now));
    }
  }

  lemma Joined(c: Conn, a: seq<Conn>, b: seq<Conn>)
    ensures [c] + (a + b) == ([c] + a) + b
  {
  }

  lemma Joined3(x: seq<Conn>, a: seq<Conn>, b: seq<Conn>)
    ensures x + (a + b) == (x + a) + b
  {
  }

  lemma {:induction false} CopiesConcat(a: seq<Conn>, b: seq<Conn>, s: Selection, now: nat)
    ensures EndedCopies(a + b, s, now) == EndedCopies(a, s, now) + EndedCopies(b, s, now)
  {
    if a == [] {
      assert a + b == b;
    } else {
      assert (a + b)[1..] == a[1..] + b;
      CopiesConcat(a[1..], b, s, now);
      var first := if Selects(s, a[0]) then [Apply(EndAt(now), a[0])] else [];
      Joined3(first, EndedCopies(a[1..], s, now), EndedCopies(b, s, now));
    }
  }

  lemma {:induction false} RetainConcat(a: seq<Conn>, b: seq<Conn>, cutoff: nat)
    ensures Retained(a + b, cutoff) == Retained(a, cutoff) + Retained(b, cutoff)
  {
    if a == [] {
      assert a + b == b;
    } else {
      assert (a + b)[1..] == a[1..] + b;
      RetainConcat(a[1..], b, cutoff);
    }
  }

  // ---- finding a bucket ----------------------------------------------------------------------

  function GetSlot(s: seq<Slot>, e: Endpoint): Option<Bucket> {
    if s == [] then None else if s[0].endpoint == e then Some(s[0].bucket) else GetSlot(s[1..], e)
  }

  function Get(r: Remotes, e: Endpoint): Option<Bucket> {
    match r
    case Nothing => None
    case Single(b) => if BucketEndpoint(b) == e then Some(b) else None
    case Many(s) => GetSlot(s, e)
  }

  lemma GetInSlots(r: Remotes, e: Endpoint)
    ensures Get(r, e) == GetSlot(Slots(r), e)
  {
  }

  lemma SlotsTail(s: seq<Slot>)
    requires s != [] && SlotsOk(s)
    ensures SlotsOk(s[1..]) && BucketOk(s[0].bucket, s[0].endpoint)
    ensures forall i :: 0 <= i < |s[1..]| ==> Below(s[0].endpoint, s[1..][i].endpoint)
  {
  }

  lemma {:induction false} SlotEndpoints(s: seq<Slot>, c: Conn) returns (i: nat)
    requires SlotsOk(s) && c in FlatSlots(s)
    ensures i < |s| && s[i].endpoint == EndpointOf(c.key)
  {
    if c in Items(s[0].bucket) {
      i := 0;
    } else {
      SlotsTail(s);
      var k := SlotEndpoints(s[1..], c);
      i := k + 1;
    }
  }

  /** Endpoints beyond the head of an ordered slot list are greater, so the head's tuples occur nowhere else. */
  lemma TailDiffers(s: seq<Slot>, c: Conn)
    requires s != [] && SlotsOk(s) && c in FlatSlots(s[1..])
    ensures Below(s[0].endpoint, EndpointOf(c.key))
  {
    SlotsTail(s);
    var i := SlotEndpoints(s[1..], c);
  }

  lemma HitEndpoint(l: seq<Conn>, q: Query)
    requires !q.alias && First(l, q).Some?
    ensures EndpointOf(First(l, q).value.key) == EndpointOf(q.key)
  {
  }

  /** Looking in one bucket finds what a scan of the whole group finds. */
  lemma {:induction false} BucketLookup(s: seq<Slot>, q: Query)
    requires SlotsOk(s) && !q.alias
    ensures var b := GetSlot(s, EndpointOf(q.key));
            First(FlatSlots(s), q) == if b.Some? then First(Items(b.value), q) else None
  {
    if s != [] {
      SlotsTail(s);
      FirstConcat(Items(s[0].bucket), FlatSlots(s[1..]), q);
      BucketLookup(s[1..], q);
      if s[0].endpoint == EndpointOf(q.key) {
        if First(FlatSlots(s[1..]), q).Some? {
          TailDiffers(s, First(FlatSlots(s[1..]), q).value);
        }
      }
    }
  }

  // ---- changing a bucket -----------------------------------------------------------------------

  function EditBucket(b: Bucket, q: Query, e: Edit): Bucket {
    match b
    case One(c) => One(if Hits(q, c) then Apply(e, c) else c)
    case Multiple(cs) => Multiple(EditFirst(cs, q, e))
  }

  lemma {:induction false} EditKeys(l: seq<Conn>, q: Query, e: Edit)
    ensures |EditFirst(l, q, e)| == |l|
    ensures forall i :: 0 <= i < |l| ==> EditFirst(l, q, e)[i].key == l[i].key
  {
    if l != [] { EditKeys(l[1..], q, e); }
  }

  lemma EditBucketOk(b: Bucket, q: Query, e: Edit, at: Endpoint)
    requires BucketOk(b, at)
    ensures Items(EditBucket(b, q, e)) == EditFirst(Items(b), q, e) && BucketOk(EditBucket(b, q, e), at)
  {
    EditKeys(Items(b), q, e);
    var l := EditFirst(Items(b), q, e);
    assert Items(EditBucket(b, q, e)) == l;
    forall c | c in l ensures EndpointOf(c.key) == at {
      var i :| 0 <= i < |l| && l[i] == c;
      assert Items(b)[i] in Items(b);
    }
  }

  /** Edits the first hit of a walk over all buckets; an exact query skips the buckets of other endpoints. */
  function EditSlots(s: seq<Slot>, q: Query, e: Edit): seq<Slot> {
    if s == [] then []
    else if (q.alias || s[0].endpoint == EndpointOf(q.key)) && First(Items(s[0].bucket), q).Some?
    then [Slot(s[0].endpoint, EditBucket(s[0].bucket, q, e))] + s[1..]
    else [s[0]] + EditSlots(s[1..], q, e)
  }

  lemma SlotsCons(x: Slot, s: seq<Slot>)
    requires SlotsOk(s) && BucketOk(x.bucket, x.endpoint)
    requires forall i :: 0 <= i < |s| ==> Below(x.endpoint, s[i].endpoint)
    ensures SlotsOk([x] + s)
  {
  }

  lemma {:induction false} EditSlotsEndpoints(s: seq<Slot>, q: Query, e: Edit)
    ensures |EditSlots(s, q, e)| == |s|
    ensures forall i :: 0 <= i < |s| ==> EditSlots(s, q, e)[i].endpoint == s[i].endpoint
  {
    if s != [] {
      EditSlotsEndpoints(s[1..], q, e);
    }
  }

  lemma {:induction false} EditSlotsOk(s: seq<Slot>, q: Query, e: Edit)
    requires SlotsOk(s)
    ensures SlotsOk(EditSlots(s, q, e))
  {
    hide SlotsOk, BucketOk;
    if s != [] {
      SlotsTail(s);
      if (q.alias || s[0].endpoint == EndpointOf(q.key)) && First(Items(s[0].bucket), q).Some? {
        EditBucketOk(s[0].bucket, q, e, s[0].endpoint);
        SlotsCons(Slot(s[0].endpoint, EditBucket(s[0].bucket, q, e)), s[1..]);
      } else {
        EditSlotsOk(s[1..], q, e);
        EditSlotsEndpoints(s[1..], q, e);
        SlotsCons(s[0], EditSlots(s[1..], q, e));
      }
    }
  }

  lemma FlatCons(x: Slot, s: seq<Slot>)
    ensures FlatSlots([x] + s) == Items(x.bucket) + FlatSlots(s)
  {
    assert ([x] + s)[1..] == s;
  }

  /** Editing the first hit where it is stored edits the first hit of the flat list. */
  lemma {:induction false} EditSlotsFlat(s: seq<Slot>, q: Query, e: Edit)
    requires SlotsOk(s)
    ensures FlatSlots(EditSlots(s, q, e)) == EditFirst(FlatSlots(s), q, e)
  {
    if s != [] {
      SlotsTail(s);
      EditConcat(Items(s[0].bucket), FlatSlots(s[1..]), q, e);
      if First(Items(s[0].bucket), q).Some? {
        if !q.alias { HitEndpoint(Items(s[0].bucket), q); }
        EditBucketOk(s[0].bucket, q, e, s[0].endpoint);
        FlatCons(Slot(s[0].endpoint, EditBucket(s[0].bucket, q, e)), s[1..]);
      } else {
        EditSlotsFlat(s[1..], q, e);
        FlatCons(s[0], EditSlots(s[1..], q, e));
      }
    }
  }

  // ---- inserting -----------------------------------------------------------------------------------

  function PushTo(b: Bucket, c: Conn): Bucket {
    match b case One(previous) => Multiple([previous, c]) case Multiple(cs) => Multiple(cs + [c])
  }

  function InsertSlot(s: seq<Slot>, e: Endpoint, c: Conn): seq<Slot> {
    if s == [] || Below(e, s[0].endpoint) then [Slot(e, One(c))] + s
    else if s[0].endpoint == e then [Slot(e, PushTo(s[0].bucket, c))] + s[1..]
    else [s[0]] + InsertSlot(s[1..], e, c)
  }

  function InsertInto(r: Remotes, e: Endpoint, c: Conn): Remotes {
    match r
    case Nothing => Single(One(c))
    case Single(b) =>
      if BucketEndpoint(b) == e then Single(PushTo(b, c)) else Many(InsertSlot([Slot(BucketEndpoint(b), b)], e, c))
    case Many(s) => Many(InsertSlot(s, e, c))
  }

  predicate Reaches(c: Conn, d: Conn) {
    !Below(EndpointOf(c.key), EndpointOf(d.key))
  }

  lemma InsertStep(d: Conn, l: seq<Conn>, c: Conn)
    requires Reaches(c, d)
    ensures Insert([d] + l, c) == [d] + Insert(l, c)
  {
    assert ([d] + l)[1..] == l;
  }

  lemma Uncons(a: seq<Conn>, b: seq<Conn>)
    requires a != []
    ensures [a[0]] + (a[1..] + b) == a + b
  {
  }

  lemma {:induction false} InsertBehind(a: seq<Conn>, b: seq<Conn>, c: Conn)
    requires forall d :: d in a ==> Reaches(c, d)
    ensures Insert(a + b, c) == a + Insert(b, c)
  {
    if a == [] {
      assert a + b == b;
    } else {
      InsertBehind(a[1..], b, c);
      InsertStep(a[0], a[1..] + b, c);
      Uncons(a, b);
      Uncons(a, Insert(b, c));
    }
  }

  lemma InsertBefore(l: seq<Conn>, c: Conn)
    requires forall d :: d in l ==> Below(EndpointOf(c.key), EndpointOf(d.key))
    ensures Insert(l, c) == [c] + l
  {
  }

  lemma PushItems(b: Bucket, c: Conn)
    ensures Items(PushTo(b, c)) == Items(b) + [c]
  {
  }

  lemma TailAbove(s: seq<Slot>)
    requires s != [] && SlotsOk(s)
    ensures forall d :: d in FlatSlots(s[1..]) ==> Below(s[0].endpoint, EndpointOf(d.key))
  {
    forall d | d in FlatSlots(s[1..]) ensures Below(s[0].endpoint, EndpointOf(d.key)) {
      TailDiffers(s, d);
    }
  }

  lemma InsertPast(s: seq<Slot>, c: Conn)
    requires s != [] && SlotsOk(s) && !Below(EndpointOf(c.key), s[0].endpoint)
    ensures Insert(FlatSlots(s), c) == Items(s[0].bucket) + Insert(FlatSlots(s[1..]), c)
  {
    forall d | d in Items(s[0].bucket) ensures Reaches(c, d) {
    }
    InsertBehind(Items(s[0].bucket), FlatSlots(s[1..]), c);
  }

  lemma InsertInPlace(s: seq<Slot>, c: Conn)
    requires s != [] && SlotsOk(s) && EndpointOf(c.key) == s[0].endpoint
    ensures FlatSlots(InsertSlot(s, s[0].endpoint, c)) == Insert(FlatSlots(s), c)
  {
    InsertPast(s, c);
    TailAbove(s);
    InsertBefore(FlatSlots(s[1..]), c);
    PushItems(s[0].bucket, c);
    var x := Slot(s[0].endpoint, PushTo(s[0].bucket, c));
    assert ([x] + s[1..])[1..] == s[1..];
    Joined3(Items(s[0].bucket), [c], FlatSlots(s[1..]));
  }

  /** Inserting into the tree inserts into the flat list. */
  lemma {:induction false} InsertSlotFlat(s: seq<Slot>, c: Conn)
    requires SlotsOk(s)
    ensures FlatSlots(InsertSlot(s, EndpointOf(c.key), c)) == Insert(FlatSlots(s), c)
  {
    var e := EndpointOf(c.key);
    if s == [] {
    } else if Below(e, s[0].endpoint) {
      TailAbove(s);
      InsertBefore(FlatSlots(s), c);
      assert ([Slot(e, One(c))] + s)[1..] == s;
    } else if s[0].endpoint == e {
      InsertInPlace(s, c);
    } else {
      SlotsTail(s);
      InsertSlotFlat(s[1..], c);
      InsertPast(s, c);
      assert ([s[0]] + InsertSlot(s[1..], e, c))[1..] == InsertSlot(s[1..], e, c);
    }
  }

  lemma {:induction false} InsertSlotOk(s: seq<Slot>, c: Conn)
    requires SlotsOk(s)
    ensures SlotsOk(InsertSlot(s, EndpointOf(c.key), c)) && |InsertSlot(s, EndpointOf(c.key), c)| >= |s|
    ensures forall x :: x in InsertSlot(s, EndpointOf(c.key), c) ==>
                          x.endpoint == EndpointOf(c.key) || exists y :: y in s && y.endpoint == x.endpoint
  {
    var e := EndpointOf(c.key);
    if s != [] {
      SlotsTail(s);
      if Below(e, s[0].endpoint) {
        SlotsCons(Slot(e, One(c)), s);
      } else if s[0].endpoint == e {
        PushItems(s[0].bucket, c);
        SlotsCons(Slot(e, PushTo(s[0].bucket, c)), s[1..]);
      } else {
        InsertSlotOk(s[1..], c);
        SlotsCons(s[0], InsertSlot(s[1..], e, c));
      }
    }
  }

  lemma InsertIntoOk(r: Remotes, c: Conn)
    requires RemotesOk(r)
    ensures RemotesOk(InsertInto(r, EndpointOf(c.key), c))
    ensures InsertInto(r, EndpointOf(c.key), c) != Nothing
    ensures Flat(InsertInto(r, EndpointOf(c.key), c)) == Insert(Flat(r), c)
  {
    var e := EndpointOf(c.key);
    InsertSlotOk(Slots(r), c);
    InsertSlotFlat(Slots(r), c);
    assert Slots(InsertInto(r, e, c)) == InsertSlot(Slots(r), e, c) by {
      if r.Single? && BucketEndpoint(r.bucket) == e {
        assert Slots(r)[1..] == [];
      }
    }
    if r.Single? && BucketEndpoint(r.bucket) != e {
      assert Slots(r)[1..] == [];
      assert |InsertSlot(Slots(r), e, c)| == 2;
    }
  }

  // ---- ending and retaining --------------------------------------------------------------------------

  function EndBucket(b: Bucket, s: Selection, now: nat): Bucket {
    match b case One(c) => One(EndIf(c, s, now)) case Multiple(cs) => Multiple(EndAll(cs, s, now))
  }

  lemma EndBucketOk(b: Bucket, s: Selection, now: nat, at: Endpoint)
    requires BucketOk(b, at)
    ensures Items(EndBucket(b, s, now)) == EndAll(Items(b), s, now) && BucketOk(EndBucket(b, s, now), at)
  {
    EndAllEvolves(Items(b), s, now);
    var l := EndAll(Items(b), s, now);
    assert Items(EndBucket(b, s, now)) == l;
    forall c | c in l ensures EndpointOf(c.key) == at {
      var i :| 0 <= i < |l| && l[i] == c;
      assert Items(b)[i] in Items(b);
    }
  }

  lemma {:induction false} FlatConcat(a: seq<Slot>, b: seq<Slot>)
    ensures FlatSlots(a + b) == FlatSlots(a) + FlatSlots(b)
  {
    if a == [] {
      assert a + b == b;
    } else {
      assert (a + b)[1..] == a[1..] + b;
      FlatConcat(a[1..], b);
    }
  }

  lemma FlatNext(s: seq<Slot>, i: nat)
    requires i < |s|
    ensures FlatSlots(s[..i + 1]) == FlatSlots(s[..i]) + Items(s[i].bucket)
  {
    assert s[..i + 1] == s[..i] + [s[i]];
    FlatConcat(s[..i], [s[i]]);
    assert FlatSlots([s[i]]) == Items(s[i].bucket);
  }

  lemma SlotsSnoc(s: seq<Slot>, x: Slot)
    requires SlotsOk(s) && BucketOk(x.bucket, x.endpoint)
    requires forall i :: 0 <= i < |s| ==> Below(s[i].endpoint, x.endpoint)
    ensures SlotsOk(s + [x])
  {
  }

  /** One more bucket of an in-place pass over a group. */
  lemma EndNext(slots: seq<Slot>, done: seq<Slot>, i: nat, s: Selection, now: nat)
    requires SlotsOk(slots) && i < |slots| && SlotsOk(done) && SameEndpoints(done, slots[..i])
    requires FlatSlots(done) == EndAll(FlatSlots(slots[..i]), s, now)
    ensures var next := done + [Slot(slots[i].endpoint, EndBucket(slots[i].bucket, s, now))];
            && SlotsOk(next) && SameEndpoints(next, slots[..i + 1])
            && FlatSlots(next) == EndAll(FlatSlots(slots[..i + 1]), s, now)
  {
    var x := Slot(slots[i].endpoint, EndBucket(slots[i].bucket, s, now));
    EndBucketOk(slots[i].bucket, s, now, slots[i].endpoint);
    FlatNext(slots, i);
    EndConcat(FlatSlots(slots[..i]), Items(slots[i].bucket), s, now);
    FlatConcat(done, [x]);
    assert FlatSlots([x]) == Items(x.bucket) by { assert [x][1..] == []; }
    forall k | 0 <= k < |done| ensures Below(done[k].endpoint, x.endpoint) {
      assert done[k].endpoint == slots[..i][k].endpoint;
    }
    SlotsSnoc(done, x);
  }

  lemma CopiesNext(slots: seq<Slot>, i: nat, s: Selection, now: nat)
    requires i < |slots|
    ensures EndedCopies(FlatSlots(slots[..i + 1]), s, now)
            == EndedCopies(FlatSlots(slots[..i]), s, now) + EndedCopies(Items(slots[i].bucket), s, now)
  {
    FlatNext(slots, i);
    CopiesConcat(FlatSlots(slots[..i]), Items(slots[i].bucket), s, now);
  }

  ghost predicate SameEndpoints(a: seq<Slot>, b: seq<Slot>) {
    |a| == |b| && forall k :: 0 <= k < |a| ==> a[k].endpoint == b[k].endpoint
  }

  /** Ends every selected connection of a group in place and collects copies of them. */
  method EndIn(r: Remotes, s: Selection, now: nat) returns (r': Remotes, ended: seq<Conn>)
    requires RemotesOk(r)
    ensures RemotesOk(r') && (r' == Nothing <==> r == Nothing)
    ensures Flat(r') == EndAll(Flat(r), s, now) && ended == EndedCopies(Flat(r), s, now)
  {
    var slots := Slots(r);
    var done: seq<Slot> := [];
    ended := [];
    for i := 0 to |slots|
      invariant SlotsOk(done) && SameEndpoints(done, slots[..i])
      invariant FlatSlots(done) == EndAll(FlatSlots(slots[..i]), s, now)
      invariant ended == EndedCopies(FlatSlots(slots[..i]), s, now)
    {
      EndNext(slots, done, i, s, now);
      CopiesNext(slots, i, s, now);
      done := done + [Slot(slots[i].endpoint, EndBucket(slots[i].bucket, s, now))];
      ended := ended + EndedCopies(Items(slots[i].bucket), s, now);
    }
    assert slots[..|slots|] == slots;
    RebuildSlots(done);
    r' := Rebuild(done);
  }

  /** A bucket left empty is dropped, a vector of one becomes inline again. */
  function RetainBucket(b: Bucket, cutoff: nat): Option<Bucket> {
    match b
    case One(c) => if Expired(c, cutoff) then None else Some(b)
    case Multiple(cs) =>
      var kept := Retained(cs, cutoff);
      if kept == [] then None else if |kept| == 1 then Some(One(kept[0])) else Some(Multiple(kept))
  }

  function RetainSlots(s: seq<Slot>, cutoff: nat): seq<Slot> {
    if s == [] then [] else
      var b := RetainBucket(s[0].bucket, cutoff);
      (if b.Some? then [Slot(s[0].endpoint, b.value)] else []) + RetainSlots(s[1..], cutoff)
  }

  function RetainIn(r: Remotes, cutoff: nat): Remotes {
    Rebuild(RetainSlots(Slots(r), cutoff))
  }

  lemma RetainBucketOk(b: Bucket, cutoff: nat, at: Endpoint)
    requires BucketOk(b, at)
    ensures var k := RetainBucket(b, cutoff);
            && Retained(Items(b), cutoff) == (if k.Some? then Items(k.value) else [])
            && (k.Some? ==> BucketOk(k.value, at) && Items(k.value) != [])
  {
    RetainedIsFilter(Items(b), cutoff);
  }

  lemma {:induction false} RetainSlotsFlat(s: seq<Slot>, cutoff: nat)
    requires SlotsOk(s)
    ensures FlatSlots(RetainSlots(s, cutoff)) == Retained(FlatSlots(s), cutoff)
  {
    if s != [] {
      var b, rest := RetainBucket(s[0].bucket, cutoff), RetainSlots(s[1..], cutoff);
      SlotsTail(s);
      RetainSlotsFlat(s[1..], cutoff);
      RetainBucketOk(s[0].bucket, cutoff, s[0].endpoint);
      RetainConcat(Items(s[0].bucket), FlatSlots(s[1..]), cutoff);
      if b.Some? {
        assert ([Slot(s[0].endpoint, b.value)] + rest)[1..] == rest;
      } else {
        assert [] + rest == rest;
      }
    }
  }

  ghost predicate AllAbove(s: seq<Slot>, e: Endpoint) {
    forall y :: y in s ==> Below(e, y.endpoint)
  }

  lemma {:induction false} RetainSlotsOk(s: seq<Slot>, cutoff: nat)
    requires SlotsOk(s)
    ensures SlotsOk(RetainSlots(s, cutoff))
    ensures forall e :: AllAbove(s, e) ==> AllAbove(RetainSlots(s, cutoff), e)
  {
    if s != [] {
      var b, rest := RetainBucket(s[0].bucket, cutoff), RetainSlots(s[1..], cutoff);
      SlotsTail(s);
      RetainSlotsOk(s[1..], cutoff);
      RetainBucketOk(s[0].bucket, cutoff, s[0].endpoint);
      assert AllAbove(s[1..], s[0].endpoint);
      assert forall e :: AllAbove(s, e) ==> AllAbove(s[1..], e);
      if b.Some? {
        SlotsCons(Slot(s[0].endpoint, b.value), rest);
      }
    }
  }

  lemma {:induction false} FlatEmpty(s: seq<Slot>)
    requires SlotsOk(s)
    ensures FlatSlots(s) == [] <==> s == []
  {
  }

  lemma RetainInOk(r: Remotes, cutoff: nat)
    requires RemotesOk(r)
    ensures RemotesOk(RetainIn(r, cutoff)) && Flat(RetainIn(r, cutoff)) == Retained(Flat(r), cutoff)
    ensures RetainIn(r, cutoff) == Nothing <==> Retained(Flat(r), cutoff) == []
  {
    RetainSlotsOk(Slots(r), cutoff);
    RetainSlotsFlat(Slots(r), cutoff);
    RebuildSlots(RetainSlots(Slots(r), cutoff));
    FlatEmpty(RetainSlots(Slots(r), cutoff));
  }

  // ---- the map ---------------------------------------------------------------------------------------

  /** A snapshot of the index: group by group, the flat list it stands for. */
  function Flatten(groups: map<Group, Remotes>): Table {
    map g | g in groups :: Flat(groups[g])
  }

  ghost predicate GroupsOk(groups: map<Group, Remotes>) {
    forall g :: g in groups ==> RemotesOk(groups[g]) && groups[g] != Nothing
  }

  /** Looking one element further. */
  lemma FirstNext(l: seq<Conn>, i: nat, q: Query)
    requires i < |l|
    ensures First(l[..i + 1], q)
            == if First(l[..i], q).Some? then First(l[..i], q) else if Hits(q, l[i]) then Some(l[i]) else None
    ensures First(l[..i], q).None? && Hits(q, l[i]) ==> First(l, q) == Some(l[i])
  {
    assert l[..i + 1] == l[..i] + [l[i]] && l == l[..i] + l[i..];
    FirstConcat(l[..i], [l[i]], q);
    FirstConcat(l[..i], l[i..], q);
  }

  /** The first live and the first ended match of one pass; an ended one matters only without a live one. */
  method LiveAndEndedMatch(l: seq<Conn>, key: Key, alias: bool) returns (live: Option<Conn>, ended: Option<Conn>)
    ensures live == First(l, Query(key, alias, false, None))
    ensures live.None? ==> ended == First(l, Query(key, alias, true, None))
  {
    ghost var q, p := Query(key, alias, false, None), Query(key, alias, true, None);
    ended := None;
    assert l[..0] == [] && First([], q) == None && First([], p) == None;
    hide First;
    for i := 0 to |l|
      invariant First(l[..i], q) == None && ended == First(l[..i], p)
    {
      var c := l[i];
      FirstNext(l, i, q);
      FirstNext(l, i, p);
      if if alias then RedirectEquals(c.key, c.verdict, key) else c.key == key {
        if !Ended(c) {
          return Some(c), ended;
        }
        if ended.None? {
          ended := Some(c);
        }
      }
    }
    assert l[..|l|] == l;
    return None, ended;
  }

  function BucketOf(groups: map<Group, Remotes>, ipv6: bool, key: Key): seq<Conn> {
    if key.remoteAddress.V6? != ipv6 || Small(key) !in groups then []
    else match Get(groups[Small(key)], EndpointOf(key)) case None => [] case Some(b) => Items(b)
  }

  lemma OtherFamilyMisses(l: seq<Conn>, g: Group, ipv6: bool, q: Query)
    requires ListOk(l, g, ipv6) && q.key.remoteAddress.V6? != ipv6 && (q.alias ==> IsIpv6(q.key) == ipv6)
    ensures First(l, q).None?
  {
    forall c | c in l ensures !Hits(q, c) {
      assert ConnOk(c, g, ipv6);
    }
  }

  /** One bucket is enough to answer an exact query. */
  lemma ExactInBucket(groups: map<Group, Remotes>, ipv6: bool, q: Query)
    requires GroupsOk(groups) && TableOk(Flatten(groups), ipv6) && !q.alias
    ensures First(BucketOf(groups, ipv6, q.key), q) == First(GroupOf(Flatten(groups), Small(q.key)), q)
  {
    var g := Small(q.key);
    if g in groups {
      GetInSlots(groups[g], EndpointOf(q.key));
      BucketLookup(Slots(groups[g]), q);
      if q.key.remoteAddress.V6? != ipv6 {
        OtherFamilyMisses(Flatten(groups)[g], g, ipv6, q);
      }
    }
  }

  lemma PutGroup(groups: map<Group, Remotes>, g: Group, r: Remotes)
    requires GroupsOk(groups) && RemotesOk(r) && r != Nothing
    ensures GroupsOk(groups[g := r]) && Flatten(groups[g := r]) == Flatten(groups)[g := Flat(r)]
  {
  }

  lemma EditGroup(groups: map<Group, Remotes>, key: Key, q: Query, e: Edit)
    requires GroupsOk(groups) && Small(key) in groups
    ensures var r := Rebuild(EditSlots(Slots(groups[Small(key)]), q, e));
            && GroupsOk(groups[Small(key) := r])
            && Flatten(groups[Small(key) := r]) == EditIn(Flatten(groups), key, q, e)
  {
    var slots := Slots(groups[Small(key)]);
    EditSlotsOk(slots, q, e);
    EditSlotsFlat(slots, q, e);
    RebuildSlots(EditSlots(slots, q, e));
    PutGroup(groups, Small(key), Rebuild(EditSlots(slots, q, e)));
  }

  lemma {:induction false} RunSnoc(t: Table, ops: seq<Op>, op: Op, ipv6: bool)
    requires ValidRun(t, ops, ipv6) && Allowed(RunAll(t, ops), op, ipv6)
    ensures ValidRun(t, ops + [op], ipv6) && RunAll(t, ops + [op]) == Step(RunAll(t, ops), op)
    decreases |ops|
  {
    if ops == [] {
      assert [op][1..] == [] && ops + [op] == [op];
    } else {
      assert (ops + [op])[1..] == ops[1..] + [op];
      RunSnoc(Step(t, ops[0]), ops[1..], op, ipv6);
    }
  }

  /** Zero is no instance. */
  lemma ZeroMisses(t: Table, ipv6: bool, key: Key)
    requires TableOk(t, ipv6)
    ensures First(GroupOf(t, Small(key)), Live(key, Some(0))).None?
  {
    if Small(key) in t {
      forall c | c in t[Small(key)] ensures c.instance != 0 {
        assert ListOk(t[Small(key)], Small(key), ipv6);
      }
    }
  }

  lemma ExactFound(t: Table, key: Key, instance: Option<nat>, e: Edit)
    requires First(GroupOf(t, Small(key)), Live(key, instance)).Some?
    ensures DoEditExact(t, key, instance, e)
            == (EditIn(t, key, Live(key, instance), e),
               Some(Apply(e, First(GroupOf(t, Small(key)), Live(key, instance)).value)))
    ensures Step(t, OpEditExact(key, instance, e)) == EditIn(t, key, Live(key, instance), e)
  {
  }

  lemma AliasCase(t: Table, key: Key, instance: nat, e: Edit)
    requires instance != 0 && DoEditExact(t, key, Some(instance), e).1.None?
    ensures var q := Query(key, true, false, Some(instance));
            var alias := First(GroupOf(t, Small(key)), q);
            && DoEditInstance(t, key, instance, true, e)
               == (if alias.Some? then (EditIn(t, key, q, e), Some(Apply(e, alias.value))) else (t, None))
            && Step(t, OpEditInstance(key, instance, true, e)) == (if alias.Some? then EditIn(t, key, q, e) else t)
  {
    EditInstanceSplits(t, key, instance, true, e);
  }

  /** An edit by instance tries the exact tuple first and the alias only then. */
  lemma EditInstanceSplits(t: Table, key: Key, instance: nat, scan: bool, e: Edit)
    requires instance != 0
    ensures var exact := DoEditExact(t, key, Some(instance), e);
            exact.1.Some? ==> DoEditInstance(t, key, instance, scan, e) == exact
    ensures DoEditExact(t, key, Some(instance), e).1.None? ==>
              var q := Query(key, true, false, Some(instance));
              var alias := First(GroupOf(t, Small(key)), q);
              DoEditInstance(t, key, instance, scan, e) ==
                if scan && alias.Some? then (EditIn(t, key, q, e), Some(Apply(e, alias.value))) else (t, None)
  {
  }

  lemma EndInstancesNext(t: Table, instances: seq<(Key, nat)>, i: nat, now: nat)
    requires i < |instances|
    ensures var before := DoEndInstances(t, instances[..i], now);
            var one := DoEditExact(before.0, instances[i].0, Some(instances[i].1), EndAt(now));
            var after := DoEndInstances(t, instances[..i + 1], now);
            && after.0 == one.0
            && after.1 == if one.1.Some? then before.1 + [one.1.value] else before.1
  {
    assert instances[..i + 1][..i] == instances[..i];
  }

  lemma EndGroupStep(groups: map<Group, Remotes>, g: Group, r: Remotes, s: Selection, now: nat)
    requires GroupsOk(groups) && g in groups && RemotesOk(r) && r != Nothing
    requires Flat(r) == EndAll(Flat(groups[g]), s, now)
    ensures GroupsOk(groups[g := r])
    ensures DoEndGroup(Flatten(groups), g, s, now).0 == Flatten(groups[g := r])
            == Step(Flatten(groups), OpEndGroup(g, s, now))
    ensures DoEndGroup(Flatten(groups), g, s, now).1 == Some(EndedCopies(Flat(groups[g]), s, now))
  {
    EndGroupTable(Flatten(groups), g, s, now);
    PutGroup(groups, g, r);
  }

  lemma EndGroupTable(t: Table, g: Group, s: Selection, now: nat)
    requires g in t
    ensures DoEndGroup(t, g, s, now).0 == t[g := EndAll(t[g], s, now)] == Step(t, OpEndGroup(g, s, now))
    ensures DoEndGroup(t, g, s, now).1 == Some(EndedCopies(t[g], s, now))
  {
  }

  /** An order in which every group comes exactly once. */
  ghost predicate Enumerates(order: seq<Group>, groups: set<Group>) {
    && (forall g :: g in order <==> g in groups)
    && (forall i, j :: 0 <= i < j < |order| ==> order[i] != order[j])
  }

  /** The copies of what an end path ended, group by group. */
  ghost function EndedOver(t: Table, order: seq<Group>, s: Selection, now: nat): seq<Conn> {
    if order == [] then []
    else EndedOver(t, order[..|order| - 1], s, now) + EndedCopies(GroupOf(t, order[|order| - 1]), s, now)
  }

  lemma EndedOverNext(t: Table, order: seq<Group>, g: Group, s: Selection, now: nat)
    ensures EndedOver(t, order + [g], s, now) == EndedOver(t, order, s, now) + EndedCopies(GroupOf(t, g), s, now)
  {
    assert (order + [g])[..|order|] == order;
  }

  /** The keys of the outer tree; their order is the tree's own and is not specified. */
  method GroupOrder(keys: set<Group>) returns (order: seq<Group>)
    ensures Enumerates(order, keys)
  {
    var todo := keys;
    order := [];
    while todo != {}
      invariant todo <= keys && Enumerates(order, keys - todo)
    {
      var g :| g in todo;
      order, todo := order + [g], todo - {g};
    }
  }

  /** How far a pass over all groups has come. */
  ghost predicate EndedUpTo(groups: map<Group, Remotes>, next: map<Group, Remotes>, order: seq<Group>, n: nat,
                            s: Selection, now: nat) {
    && next.Keys == groups.Keys && n <= |order|
    && (forall i :: 0 <= i < |order| ==> order[i] in groups)
    && (forall i :: 0 <= i < n ==> Flat(next[order[i]]) == EndAll(Flat(groups[order[i]]), s, now))
    && (forall i :: n <= i < |order| ==> next[order[i]] == groups[order[i]])
  }

  lemma EndedOneMore(groups: map<Group, Remotes>, next: map<Group, Remotes>, order: seq<Group>, n: nat, s: Selection,
                     now: nat, r: Remotes)
    requires EndedUpTo(groups, next, order, n, s, now) && Enumerates(order, groups.Keys) && n < |order|
    requires Flat(r) == EndAll(Flat(groups[order[n]]), s, now)
    ensures EndedUpTo(groups, next[order[n] := r], order, n + 1, s, now)
  {
    hide Flat, EndAll;
    var g, after := order[n], next[order[n] := r];
    forall i | 0 <= i < |order| && i != n ensures order[i] != g && after[order[i]] == next[order[i]] {
    }
  }

  lemma EndedToTheEnd(groups: map<Group, Remotes>, next: map<Group, Remotes>, order: seq<Group>, s: Selection, now: nat)
    requires EndedUpTo(groups, next, order, |order|, s, now) && Enumerates(order, groups.Keys)
    ensures next.Keys == groups.Keys && forall g :: g in groups ==> Flat(next[g]) == EndAll(Flat(groups[g]), s, now)
  {
    hide Flat, EndAll;
    forall g | g in groups ensures Flat(next[g]) == EndAll(Flat(groups[g]), s, now) {
      var i :| 0 <= i < |order| && order[i] == g;
    }
  }

  /** Everything a pass over all groups has done after `n` of them. */
  ghost predicate Passed(groups: map<Group, Remotes>, next: map<Group, Remotes>, ended: seq<Conn>, order: seq<Group>,
                         n: nat, s: Selection, now: nat) {
    && n <= |order| && Enumerates(order, groups.Keys) && GroupsOk(next) && EndedUpTo(groups, next, order, n, s, now)
    && ended == EndedOver(Flatten(groups), order[..n], s, now)
  }

  lemma CopiesOneMore(groups: map<Group, Remotes>, order: seq<Group>, n: nat, s: Selection, now: nat)
    requires n < |order| && order[n] in groups
    ensures EndedOver(Flatten(groups), order[..n + 1], s, now)
            == EndedOver(Flatten(groups), order[..n], s, now) + EndedCopies(Flat(groups[order[n]]), s, now)
  {
    hide EndedOver, EndedCopies;
    assert GroupOf(Flatten(groups), order[n]) == Flat(groups[order[n]]);
    assert order[..n] + [order[n]] == order[..n + 1];
    EndedOverNext(Flatten(groups), order[..n], order[n], s, now);
  }

  lemma PassOne(groups: map<Group, Remotes>, next: map<Group, Remotes>, ended: seq<Conn>, order: seq<Group>, n: nat,
                s: Selection, now: nat, r: Remotes)
    requires Passed(groups, next, ended, order, n, s, now) && n < |order| && order[n] in groups
    requires RemotesOk(r) && r != Nothing && Flat(r) == EndAll(Flat(groups[order[n]]), s, now)
    ensures var more := EndedCopies(Flat(groups[order[n]]), s, now);
            Passed(groups, next[order[n] := r], ended + more, order, n + 1, s, now)
  {
    hide EndedUpTo, Enumerates, EndAll, EndedCopies, EndedOver, Flat, Flatten, GroupsOk, RemotesOk;
    EndedOneMore(groups, next, order, n, s, now, r);
    PutGroup(next, order[n], r);
    CopiesOneMore(groups, order, n, s, now);
  }

  lemma PassStarts(groups: map<Group, Remotes>, order: seq<Group>, s: Selection, now: nat)
    requires GroupsOk(groups) && Enumerates(order, groups.Keys)
    ensures Passed(groups, groups, [], order, 0, s, now) && forall i :: 0 <= i < |order| ==> order[i] in groups
  {
  }

  lemma PassEnds(groups: map<Group, Remotes>, next: map<Group, Remotes>, ended: seq<Conn>, order: seq<Group>,
                 s: Selection, now: nat)
    requires Passed(groups, next, ended, order, |order|, s, now)
    ensures GroupsOk(next) && next.Keys == groups.Keys
    ensures forall g :: g in groups ==> Flat(next[g]) == EndAll(Flat(groups[g]), s, now)
    ensures ended == EndedOver(Flatten(groups), order, s, now)
  {
    EndedToTheEnd(groups, next, order, s, now);
    assert order[..|order|] == order;
  }

  /** Ends the selected connections of every group, in the order of the tree. */
  method EndGroups(groups: map<Group, Remotes>, s: Selection, now: nat)
    returns (next: map<Group, Remotes>, ended: seq<Conn>, order: seq<Group>)
    requires GroupsOk(groups)
    ensures GroupsOk(next) && next.Keys == groups.Keys
    ensures forall g :: g in groups ==> Flat(next[g]) == EndAll(Flat(groups[g]), s, now)
    ensures Enumerates(order, groups.Keys) && ended == EndedOver(Flatten(groups), order, s, now)
  {
    hide Passed, Enumerates, EndedOver, Flatten, Flat, EndAll;
    order := GroupOrder(groups.Keys);
    next, ended := groups, [];
    PassStarts(groups, order, s, now);
    for i := 0 to |order|
      invariant Passed(groups, next, ended, order, i, s, now)
    {
      var remotes, more := EndIn(groups[order[i]], s, now);
      PassOne(groups, next, ended, order, i, s, now, remotes);
      next, ended := next[order[i] := remotes], ended + more;
    }
    PassEnds(groups, next, ended, order, s, now);
  }

  lemma RetainedEverywhere(groups: map<Group, Remotes>, next: map<Group, Remotes>, cutoff: nat)
    requires forall g :: g in next <==> g in groups && Retained(Flat(groups[g]), cutoff) != []
    requires forall g :: g in next ==> Flat(next[g]) == Retained(Flat(groups[g]), cutoff)
    ensures Flatten(next) == DoClean(Flatten(groups), cutoff)
  {
    hide Flat, Retained;
  }

  /** Drops expired history from every group, and the groups left empty. */
  method RetainGroups(groups: map<Group, Remotes>, cutoff: nat) returns (next: map<Group, Remotes>)
    requires GroupsOk(groups)
    ensures GroupsOk(next)
    ensures Flatten(next) == DoClean(Flatten(groups), cutoff)
  {
    hide Flat, Retained, RetainIn, RemotesOk, Flatten, DoClean;
    var todo := groups.Keys;
    next := map[];
    while todo != {}
      invariant todo <= groups.Keys && GroupsOk(next)
      invariant forall g :: g in next <==> g in groups && g !in todo && Retained(Flat(groups[g]), cutoff) != []
      invariant forall g :: g in next ==> Flat(next[g]) == Retained(Flat(groups[g]), cutoff)
    {
      var g :| g in todo;
      RetainInOk(groups[g], cutoff);
      if RetainIn(groups[g], cutoff) != Nothing {
        next := next[g := RetainIn(groups[g], cutoff)];
      }
      todo := todo - {g};
    }
    RetainedEverywhere(groups, next, cutoff);
  }

  lemma EndedEverywhere(groups: map<Group, Remotes>, next: map<Group, Remotes>, now: nat)
    requires next.Keys == groups.Keys
    requires forall g :: g in groups ==> Flat(next[g]) == EndAll(Flat(groups[g]), Inactive(Cutoff(now)), now)
    ensures Flatten(next) == DoEndInactive(Flatten(groups), Cutoff(now), now)
            == Step(Flatten(groups), OpEndInactive(now))
    ensures Flatten(groups).Keys == groups.Keys
  {
  }

  class ConnectionMap {
    const ipv6: bool
    const ignoreSpecialPorts: bool
    var groups: map<Group, Remotes>
    /** The flat table the index stands for, and the operations that made it. */
    ghost var table: Table
    ghost var past: seq<Op>

    /** The index is well formed and stands for the table that all operations so far have made. */
    ghost predicate Valid()
      reads this
    {
      GroupsOk(groups) && table == Flatten(groups) && ValidRun(map[], past, ipv6) && table == RunAll(map[], past)
    }

    /** Hence whatever holds of every reachable table holds of this one. */
    lemma Reached()
      requires Valid()
      ensures TableOk(table, ipv6)
    {
      RunOk(map[], past, ipv6);
    }

    constructor (ipv6: bool, ignoreSpecialPorts: bool)
      ensures Valid() && table == map[] && this.ipv6 == ipv6 && this.ignoreSpecialPorts == ignoreSpecialPorts
    {
      this.ipv6 := ipv6;
      this.ignoreSpecialPorts := ignoreSpecialPorts;
      groups := map[];
      table := map[];
      past := [];
    }

    /** The bucket of a tuple; a remote address of the other family has none. */
    function BucketItems(key: Key): seq<Conn>
      reads this
    {
      BucketOf(groups, ipv6, key)
    }

    lemma InBucket(q: Query)
      requires Valid() && !q.alias
      ensures First(BucketItems(q.key), q) == First(GroupOf(table, Small(q.key)), q)
    {
      Reached();
      ExactInBucket(groups, ipv6, q);
    }

    ghost method Record(op: Op)
      requires ValidRun(map[], past, ipv6) && table == RunAll(map[], past) && Allowed(table, op, ipv6)
      modifies this`past, this`table
      ensures ValidRun(map[], past, ipv6) && table == RunAll(map[], past) && table == Step(old(table), op)
    {
      RunSnoc(map[], past, op, ipv6);
      past, table := past + [op], Step(table, op);
    }

    /** Changes the first hit of a query where it is stored. */
    method EditHit(key: Key, q: Query, e: Edit, ghost op: Op)
      requires Valid() && Small(key) in groups
      requires !op.OpInsert? || Allowed(table, op, ipv6)
      requires Step(table, op) == EditIn(table, key, q, e)
      modifies this
      ensures Valid() && table == EditIn(old(table), key, q, e)
    {
      EditGroup(groups, key, q, e);
      groups := groups[Small(key) := Rebuild(EditSlots(Slots(groups[Small(key)]), q, e))];
      Record(op);
    }

    /** The candidate goes into its bucket; its tuple has no live entry. */
    method InsertNew(c: Conn, merge: Edit)
      requires Valid() && ConnOk(c, Small(c.key), ipv6)
      requires forall g :: g in table ==> !HasId(table[g], c.instance)
      requires First(GroupOf(table, Small(c.key)), Live(c.key, None)).None?
      modifies this
      ensures Valid() && table == DoInsert(old(table), c, merge).0
    {
      var remotes := if Small(c.key) in groups then groups[Small(c.key)] else Nothing;
      InsertIntoOk(remotes, c);
      PutGroup(groups, Small(c.key), InsertInto(remotes, EndpointOf(c.key), c));
      groups := groups[Small(c.key) := InsertInto(remotes, EndpointOf(c.key), c)];
      Record(OpInsert(c, merge));
    }

    /** The answer names the live entry of the tuple, whether it was there or is new. */
    method InsertIfAbsent(c: Conn, merge: Edit) returns (r: Result<nat, nat>)
      requires Valid() && ConnOk(c, Small(c.key), ipv6)
      requires forall g :: g in table ==> !HasId(table[g], c.instance)
      modifies this
      ensures Valid() && (table, r) == DoInsert(old(table), c, merge)
      ensures !Ended(c) && !merge.EndAt? ==> Answers(old(table), table, c.key, r) && (r.Ok? ==> r.value == c.instance)
    {
      hide Answers, GroupsOk, RunAll, ValidRun, Flatten, LiveIn;
      Reached();
      if !Ended(c) && !merge.EndAt? {
        RegisterChooses(table, ipv6, c, merge);
      }
      InBucket(Live(c.key, None));
      var existing := First(BucketItems(c.key), Live(c.key, None));
      if existing.Some? {
        EditHit(c.key, Live(c.key, None), merge, OpInsert(c, merge));
        return Err(existing.value.instance);
      }
      InsertNew(c, merge);
      return Ok(c.instance);
    }

    /** Live exact, then live redirected, then, for late packets, ended exact and ended redirected. */
    method Read(key: Key, fallback: bool, now: nat) returns (r: Option<Conn>)
      requires Valid()
      modifies this
      ensures Valid()
      ensures (table, r) == DoRead(old(table), key, IsRedirectPort(key.remotePort, ignoreSpecialPorts), fallback, now)
    {
      hide GroupsOk, RunAll, ValidRun, EditIn, First;
      ghost var op := OpRead(key, IsRedirectPort(key.remotePort, ignoreSpecialPorts), fallback, now);
      if Small(key) !in groups {
        return None;
      }
      InBucket(Query(key, false, false, None));
      InBucket(Query(key, false, true, None));
      var liveExact, endedExact := LiveAndEndedMatch(BucketItems(key), key, false);
      if liveExact.Some? {
        EditHit(key, Query(key, false, false, None), Refresh(now), op);
        return Some(Refreshed(liveExact.value, now));
      }
      var liveAlias, endedAlias := None, None;
      if IsRedirectPort(key.remotePort, ignoreSpecialPorts) {
        liveAlias, endedAlias := LiveAndEndedMatch(Flat(groups[Small(key)]), key, true);
      }
      if liveAlias.Some? {
        EditHit(key, Query(key, true, false, None), Refresh(now), op);
        return Some(Refreshed(liveAlias.value, now));
      }
      if fallback && endedExact.Some? {
        EditHit(key, Query(key, false, true, None), Refresh(now), op);
        return Some(Refreshed(endedExact.value, now));
      }
      if fallback && endedAlias.Some? {
        EditHit(key, Query(key, true, true, None), Refresh(now), op);
        return Some(Refreshed(endedAlias.value, now));
      }
      return None;
    }

    /** One exact live instance, by its own tuple or by its present redirect alias. */
    method GetLiveInstanceMatching(key: Key, instance: nat) returns (r: Option<Conn>)
      requires Valid()
      ensures r == LookUpInstance(table, key, instance, IsRedirectPort(key.remotePort, ignoreSpecialPorts))
    {
      if instance == 0 {
        return None;
      }
      InBucket(Live(key, Some(instance)));
      r := First(BucketItems(key), Live(key, Some(instance)));
      if r.Some? || !IsRedirectPort(key.remotePort, ignoreSpecialPorts) || Small(key) !in groups {
        return;
      }
      r := First(Flat(groups[Small(key)]), Query(key, true, false, Some(instance)));
    }

    /** A tuple that mixes families names no stored connection, not even by alias. */
    lemma MixedFamilyMisses(key: Key, alias: bool, instance: nat)
      requires Valid() && IsIpv6(key) == ipv6 && key.remoteAddress.V6? != ipv6
      ensures First(GroupOf(table, Small(key)), Query(key, alias, false, Some(instance))).None?
    {
      Reached();
      if Small(key) in groups {
        OtherFamilyMisses(table[Small(key)], Small(key), ipv6, Query(key, alias, false, Some(instance)));
      }
    }

    /** Changes one exact live instance: a verdict, an attribution. */
    method EditInstance(key: Key, instance: nat, e: Edit) returns (r: Option<Conn>)
      requires Valid() && IsIpv6(key) == ipv6
      modifies this
      ensures Valid()
      ensures (table, r)
              == DoEditInstance(old(table), key, instance, IsRedirectPort(key.remotePort, ignoreSpecialPorts), e)
    {
      if instance == 0 {
        return None;
      }
      EditInstanceSplits(table, key, instance, IsRedirectPort(key.remotePort, ignoreSpecialPorts), e);
      r := EditExact(key, Some(instance), e);
      if r.None? && IsRedirectPort(key.remotePort, ignoreSpecialPorts) && Small(key) in groups {
        r := EditAlias(key, instance, e);
      }
    }

    /** The redirect scan for one exact live instance. */
    method EditAlias(key: Key, instance: nat, e: Edit) returns (r: Option<Conn>)
      requires Valid() && IsIpv6(key) == ipv6 && instance != 0 && Small(key) in groups
      requires DoEditExact(table, key, Some(instance), e).1.None?
      modifies this
      ensures Valid() && (table, r) == DoEditInstance(old(table), key, instance, true, e)
    {
      var q := Query(key, true, false, Some(instance));
      AliasCase(table, key, instance, e);
      if key.remoteAddress.V6? != ipv6 {
        MixedFamilyMisses(key, true, instance);
        return None;
      }
      var alias := First(Flat(groups[Small(key)]), q);
      if alias.None? {
        return None;
      }
      r := Some(Apply(e, alias.value));
      EditHit(key, q, e, OpEditInstance(key, instance, true, e));
    }

    lemma NoZero(key: Key)
      requires Valid()
      ensures First(GroupOf(table, Small(key)), Live(key, Some(0))).None?
    {
      Reached();
      ZeroMisses(table, ipv6, key);
    }

    /** Changes, ends or promotes the live entry of an exact tuple, or only one instance of it. */
    method EditExact(key: Key, instance: Option<nat>, e: Edit) returns (r: Option<Conn>)
      requires Valid()
      modifies this
      ensures Valid() && (table, r) == DoEditExact(old(table), key, instance, e)
    {
      if instance == Some(0) {
        NoZero(key);
        return None;
      }
      InBucket(Live(key, instance));
      var c := First(BucketItems(key), Live(key, instance));
      if c.None? {
        return None;
      }
      ExactFound(table, key, instance, e);
      r := Some(Apply(e, c.value));
      EditHit(key, Live(key, instance), e, OpEditExact(key, instance, e));
    }

    /** Ends several exact generations in one pass, with one reading of the clock. */
    method EndInstances(instances: seq<(Key, nat)>, now: nat) returns (ended: seq<Conn>)
      requires Valid()
      modifies this
      ensures Valid() && (table, ended) == DoEndInstances(old(table), instances, now)
    {
      ended := [];
      for i := 0 to |instances|
        invariant Valid()
        invariant table == DoEndInstances(old(table), instances[..i], now).0
        invariant ended == DoEndInstances(old(table), instances[..i], now).1
      {
        EndInstancesNext(old(table), instances, i, now);
        var c := EditExact(instances[i].0, Some(instances[i].1), EndAt(now));
        if c.Some? {
          ended := ended + [c.value];
        }
      }
      assert instances[..|instances|] == instances;
    }

    /** Ends the live connections of one local endpoint, or only those without a native lifetime. */
    method EndMatchingOnEndpoint(g: Group, s: Selection, now: nat) returns (r: Option<seq<Conn>>)
      requires Valid()
      modifies this
      ensures Valid() && (table, r) == DoEndGroup(old(table), g, s, now)
    {
      if g !in groups {
        return None;
      }
      var remotes, ended := EndIn(groups[g], s, now);
      EndGroupStep(groups, g, remotes, s, now);
      groups := groups[g := remotes];
      Record(OpEndGroup(g, s, now));
      return Some(ended);
    }

    /** Ends every idle fallback entry of the family. */
    method EndInactiveUntracked(now: nat) returns (ended: seq<Conn>, ghost order: seq<Group>)
      requires Valid()
      modifies this
      ensures Valid() && table == DoEndInactive(old(table), Cutoff(now), now)
      ensures Enumerates(order, old(table).Keys) && ended == EndedOver(old(table), order, Inactive(Cutoff(now)), now)
    {
      hide Enumerates, EndedOver, Flatten, DoEndInactive;
      var next;
      next, ended, order := EndGroups(groups, Inactive(Cutoff(now)), now);
      EndedEverywhere(groups, next, now);
      groups := next;
      Record(OpEndInactive(now));
    }

    /** Removes ended history after its grace period, and the groups that become empty. */
    method CleanEnded(now: nat)
      requires Valid()
      modifies this
      ensures Valid() && table == DoClean(old(table), Cutoff(now))
    {
      hide Flatten, DoClean, GroupsOk, RunAll, ValidRun;
      var next := RetainGroups(groups, Cutoff(now));
      groups := next;
      Record(OpClean(now));
    }

    method Clear()
      requires Valid()
      modifies this
      ensures Valid() && table == map[]
    {
      groups := map[];
      Record(OpClear);
    }
  }
}
