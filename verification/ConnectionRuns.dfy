/**
 Whole runs of the connection table: what every sequence of operations keeps.
 */
module ConnectionRuns {
  import opened Net
  import opened ConnectionTable

  // ---- the invariant -------------------------------------------------------------------

  predicate ConnOk(c: Conn, g: Group, ipv6: bool) {
    Small(c.key) == g && SameFamily(c.key) && IsIpv6(c.key) == ipv6 && c.instance >= 1
  }

  /**
   Two entries of a group in list order: endpoint order, at most one of them live under one
   tuple, different numbers.
   */
  predicate PairOk(a: Conn, b: Conn) {
    && !Below(EndpointOf(b.key), EndpointOf(a.key))
    && (Ended(a) || Ended(b) || a.key != b.key)
    && a.instance != b.instance
  }

  ghost predicate Pairwise(l: seq<Conn>) {
    forall i, j :: 0 <= i < j < |l| ==> PairOk(l[i], l[j])
  }

  ghost predicate ListOk(l: seq<Conn>, g: Group, ipv6: bool) {
    l != [] && (forall c :: c in l ==> ConnOk(c, g, ipv6)) && Pairwise(l)
  }

  predicate HasId(l: seq<Conn>, instance: nat) {
    exists i :: 0 <= i < |l| && l[i].instance == instance
  }

  ghost predicate TableOk(t: Table, ipv6: bool) {
    && (forall g :: g in t ==> ListOk(t[g], g, ipv6))
    && (forall g, h, id :: g in t && h in t && HasId(t[g], id) && HasId(t[h], id) ==> g == h)
  }

  // ---- edits change live entries only ------------------------------------------------------

  /** The same entries under the same tuples and numbers; what had ended is untouched. */
  ghost predicate Evolves(a: seq<Conn>, b: seq<Conn>) {
    && |a| == |b|
    && forall i :: 0 <= i < |a| ==>
         b[i].key == a[i].key && b[i].instance == a[i].instance && (Ended(a[i]) ==> b[i] == a[i])
  }

  /** Edits are only aimed at live entries, except that a late read may try to refresh an ended one, in vain. */
  predicate Harmless(q: Query, e: Edit) {
    q.ended ==> e.Refresh?
  }

  lemma {:induction false} EditEvolves(l: seq<Conn>, q: Query, e: Edit)
    requires Harmless(q, e)
    ensures Evolves(l, EditFirst(l, q, e))
  {
    if l != [] {
      EditEvolves(l[1..], q, e);
    }
  }

  lemma {:induction false} EndAllEvolves(l: seq<Conn>, s: Selection, now: nat)
    ensures Evolves(l, EndAll(l, s, now))
  {
    if l != [] {
      EndAllEvolves(l[1..], s, now);
    }
  }

  lemma EvolvedListOk(a: seq<Conn>, b: seq<Conn>, g: Group, ipv6: bool)
    requires ListOk(a, g, ipv6) && Evolves(a, b)
    ensures ListOk(b, g, ipv6)
    ensures forall id :: HasId(a, id) <==> HasId(b, id)
  {
    forall c | c in b ensures ConnOk(c, g, ipv6) {
      var i :| 0 <= i < |b| && b[i] == c;
      assert a[i] in a;
    }
    assert forall i :: 0 <= i < |a| ==> b[i].instance == a[i].instance;
  }

  ghost predicate TableEvolves(t: Table, u: Table) {
    t.Keys == u.Keys && forall g :: g in t ==> Evolves(t[g], u[g])
  }

  lemma EvolvedTableOk(t: Table, u: Table, ipv6: bool)
    requires TableOk(t, ipv6) && TableEvolves(t, u)
    ensures TableOk(u, ipv6)
  {
    forall g | g in u ensures ListOk(u[g], g, ipv6) && forall id :: HasId(t[g], id) <==> HasId(u[g], id) {
      EvolvedListOk(t[g], u[g], g, ipv6);
    }
  }

  lemma EditInEvolves(t: Table, key: Key, q: Query, e: Edit)
    requires Harmless(q, e)
    ensures TableEvolves(t, EditIn(t, key, q, e))
  {
    if Small(key) in t {
      EditEvolves(t[Small(key)], q, e);
    }
    assert forall g :: g in t ==> Evolves(t[g], t[g]);
  }

  // ---- inserting -----------------------------------------------------------------------------

  lemma PairwiseCons(d: Conn, l: seq<Conn>)
    ensures Pairwise([d] + l) <==> Pairwise(l) && forall e :: e in l ==> PairOk(d, e)
  {
    var r := [d] + l;
    assert forall i :: 0 <= i < |l| ==> r[i + 1] == l[i];
    if Pairwise(r) {
      forall i, j | 0 <= i < j < |l| ensures PairOk(l[i], l[j]) {
        assert PairOk(r[i + 1], r[j + 1]);
      }
      forall e | e in l ensures PairOk(d, e) {
        var i :| 0 <= i < |l| && l[i] == e;
        assert PairOk(r[0], r[i + 1]);
      }
    }
  }

  lemma {:induction false} InsertMembers(l: seq<Conn>, c: Conn)
    ensures forall d :: d in Insert(l, c) <==> d in l || d == c
  {
    if l != [] {
      InsertMembers(l[1..], c);
      assert l == [l[0]] + l[1..];
    }
  }

  /** Fresh against an entry: another number, and not a second live owner of its tuple. */
  predicate Fresh(c: Conn, d: Conn) {
    c.instance != d.instance && (Ended(d) || d.key != c.key)
  }

  /** The new entry joins the endpoint order behind its equals. */
  lemma {:induction false} InsertPairwise(l: seq<Conn>, c: Conn)
    requires Pairwise(l) && forall d :: d in l ==> Fresh(c, d)
    ensures Pairwise(Insert(l, c))
  {
    if l != [] {
      assert l == [l[0]] + l[1..];
      PairwiseCons(l[0], l[1..]);
      if Below(EndpointOf(c.key), EndpointOf(l[0].key)) {
        PairwiseCons(c, l);
      } else {
        InsertPairwise(l[1..], c);
        InsertMembers(l[1..], c);
        assert l[0] in l && PairOk(l[0], c);
        PairwiseCons(l[0], Insert(l[1..], c));
      }
    }
  }

  lemma HasIdMember(l: seq<Conn>, c: Conn)
    requires c in l
    ensures HasId(l, c.instance)
  {
    var i :| 0 <= i < |l| && l[i] == c;
    assert l[i].instance == c.instance;
  }

  lemma InsertListOk(l: seq<Conn>, c: Conn, g: Group, ipv6: bool)
    requires l == [] || ListOk(l, g, ipv6)
    requires ConnOk(c, g, ipv6) && First(l, Live(c.key, None)).None? && !HasId(l, c.instance)
    ensures ListOk(Insert(l, c), g, ipv6)
    ensures forall id :: HasId(Insert(l, c), id) ==> HasId(l, id) || id == c.instance
  {
    InsertMembers(l, c);
    forall d | d in l ensures Fresh(c, d) {
      HasIdMember(l, d);
      assert !Hits(Live(c.key, None), d);
    }
    InsertPairwise(l, c);
    forall id | HasId(Insert(l, c), id) ensures HasId(l, id) || id == c.instance {
      var i :| 0 <= i < |Insert(l, c)| && Insert(l, c)[i].instance == id;
      var d := Insert(l, c)[i];
      assert d in Insert(l, c);
      if d in l { HasIdMember(l, d); }
    }
  }

  lemma InsertTableOk(t: Table, c: Conn, merge: Edit, ipv6: bool)
    requires TableOk(t, ipv6) && ConnOk(c, Small(c.key), ipv6)
    requires forall g :: g in t ==> !HasId(t[g], c.instance)
    ensures TableOk(DoInsert(t, c, merge).0, ipv6)
  {
    var g := Small(c.key);
    if First(GroupOf(t, g), Live(c.key, None)).Some? {
      EditInEvolves(t, c.key, Live(c.key, None), merge);
      EvolvedTableOk(t, EditIn(t, c.key, Live(c.key, None), merge), ipv6);
    } else {
      InsertListOk(GroupOf(t, g), c, g, ipv6);
    }
  }

  // ---- cleaning ---------------------------------------------------------------------------------

  lemma {:induction false} RetainedIsFilter(l: seq<Conn>, cutoff: nat)
    ensures forall c :: c in Retained(l, cutoff) <==> c in l && !Expired(c, cutoff)
    ensures forall id :: HasId(Retained(l, cutoff), id) ==> HasId(l, id)
  {
    if l != [] {
      RetainedIsFilter(l[1..], cutoff);
      assert l == [l[0]] + l[1..];
      forall id | HasId(Retained(l, cutoff), id) ensures HasId(l, id) {
        var i :| 0 <= i < |Retained(l, cutoff)| && Retained(l, cutoff)[i].instance == id;
        assert Retained(l, cutoff)[i] in l;
      }
    }
  }

  lemma {:induction false} RetainedPairwise(l: seq<Conn>, cutoff: nat)
    requires Pairwise(l)
    ensures Pairwise(Retained(l, cutoff))
  {
    if l != [] {
      assert l == [l[0]] + l[1..];
      PairwiseCons(l[0], l[1..]);
      RetainedPairwise(l[1..], cutoff);
      RetainedIsFilter(l[1..], cutoff);
      PairwiseCons(l[0], Retained(l[1..], cutoff));
    }
  }

  lemma CleanTableOk(t: Table, cutoff: nat, ipv6: bool)
    requires TableOk(t, ipv6)
    ensures TableOk(DoClean(t, cutoff), ipv6)
  {
    forall g | g in t
      ensures Retained(t[g], cutoff) != [] ==> ListOk(Retained(t[g], cutoff), g, ipv6)
      ensures forall id :: HasId(Retained(t[g], cutoff), id) ==> HasId(t[g], id)
    {
      RetainedPairwise(t[g], cutoff);
      RetainedIsFilter(t[g], cutoff);
    }
  }

  // ---- runs ---------------------------------------------------------------------------------------

  datatype Op =
    | OpInsert(conn: Conn, merge: Edit)
    | OpRead(key: Key, scan: bool, fallback: bool, now: nat)
    | OpEditExact(key: Key, owner: Option<nat>, edit: Edit)
    | OpEditInstance(key: Key, instance: nat, scan: bool, edit: Edit)
    | OpEndGroup(group: Group, selection: Selection, now: nat)
    | OpEndInactive(now: nat)
    | OpClean(now: nat)
    | OpClear

  function Step(t: Table, op: Op): Table {
    match op
    case OpInsert(c, merge) => DoInsert(t, c, merge).0
    case OpRead(key, scan, fallback, now) => DoRead(t, key, scan, fallback, now).0
    case OpEditExact(key, owner, e) => DoEditExact(t, key, owner, e).0
    case OpEditInstance(key, instance, scan, e) => DoEditInstance(t, key, instance, scan, e).0
    case OpEndGroup(g, s, now) => DoEndGroup(t, g, s, now).0
    case OpEndInactive(now) => DoEndInactive(t, Cutoff(now), now)
    case OpClean(now) => DoClean(t, Cutoff(now))
    case OpClear => map[]
  }

  /** A candidate belongs to this family and carries a number that no stored entry has. */
  ghost predicate Allowed(t: Table, op: Op, ipv6: bool) {
    op.OpInsert? ==>
      ConnOk(op.conn, Small(op.conn.key), ipv6) && forall g :: g in t ==> !HasId(t[g], op.conn.instance)
  }

  /** Every operation but insertion, cleaning and clearing keeps all entries in place. */
  lemma StepEvolves(t: Table, op: Op)
    requires !op.OpInsert? && !op.OpClean? && !op.OpClear?
    ensures TableEvolves(t, Step(t, op))
  {
    assert forall g :: g in t ==> Evolves(t[g], t[g]);
    match op
    case OpRead(key, scan, fallback, now) =>
      var w := Winner(GroupOf(t, Small(key)), key, scan, fallback);
      if w.Some? { EditInEvolves(t, key, w.value, Refresh(now)); }
    case OpEditExact(key, owner, e) => EditInEvolves(t, key, Live(key, owner), e);
    case OpEditInstance(key, instance, scan, e) =>
      var w := InstanceQuery(GroupOf(t, Small(key)), key, instance, scan);
      if w.Some? { EditInEvolves(t, key, w.value, e); }
    case OpEndGroup(g, s, now) =>
      if g in t { EndAllEvolves(t[g], s, now); }
    case OpEndInactive(now) =>
      forall g | g in t ensures Evolves(t[g], EndAll(t[g], Inactive(Cutoff(now)), now)) {
        EndAllEvolves(t[g], Inactive(Cutoff(now)), now);
      }
  }

  lemma StepOk(t: Table, op: Op, ipv6: bool)
    requires TableOk(t, ipv6) && Allowed(t, op, ipv6)
    ensures TableOk(Step(t, op), ipv6)
  {
    match op
    case OpInsert(c, merge) => InsertTableOk(t, c, merge, ipv6);
    case OpClean(now) => CleanTableOk(t, Cutoff(now), ipv6);
    case OpClear =>
    case _ =>
      StepEvolves(t, op);
      EvolvedTableOk(t, Step(t, op), ipv6);
  }

  ghost predicate ValidRun(t: Table, ops: seq<Op>, ipv6: bool)
    decreases |ops|
  {
    ops == [] || (Allowed(t, ops[0], ipv6) && ValidRun(Step(t, ops[0]), ops[1..], ipv6))
  }

  function RunAll(t: Table, ops: seq<Op>): Table
    decreases |ops|
  {
    if ops == [] then t else RunAll(Step(t, ops[0]), ops[1..])
  }

  /** Every reachable table: one live entry per tuple, endpoint order, distinct numbers, no empty group. */
  lemma {:induction false} RunOk(t: Table, ops: seq<Op>, ipv6: bool)
    requires TableOk(t, ipv6) && ValidRun(t, ops, ipv6)
    ensures TableOk(RunAll(t, ops), ipv6)
    decreases |ops|
  {
    if ops != [] {
      StepOk(t, ops[0], ipv6);
      RunOk(Step(t, ops[0]), ops[1..], ipv6);
    }
  }

  // ---- retained history ---------------------------------------------------------------------------

  /** Removed by this operation: everything, or what ended more than a minute ago. */
  predicate Drops(op: Op, c: Conn) {
    op.OpClear? || (op.OpClean? && Ended(c) && c.endTime + GRACE < op.now)
  }

  /** An ended entry is the same after an operation, exactly unless that drops it. */
  lemma HistoryStep(t: Table, op: Op, g: Group, c: Conn)
    requires g in t && c in t[g] && Ended(c)
    ensures (g in Step(t, op) && c in Step(t, op)[g]) <==> !Drops(op, c)
  {
    var i :| 0 <= i < |t[g]| && t[g][i] == c;
    match op
    case OpInsert(d, merge) =>
      if First(GroupOf(t, Small(d.key)), Live(d.key, None)).Some? {
        EditInEvolves(t, d.key, Live(d.key, None), merge);
        assert Evolves(t[g], Step(t, op)[g]);
        assert Step(t, op)[g][i] == c;
      } else if g == Small(d.key) {
        InsertMembers(t[g], d);
      }
    case OpClean(now) => RetainedIsFilter(t[g], Cutoff(now));
    case OpClear =>
    case _ =>
      StepEvolves(t, op);
      assert Step(t, op)[g][i] == c;
  }

  /**
   History over whole runs: an ended entry is still there, unchanged, after every run
   without a clear and without a clean more than a minute after its end.
   */
  lemma {:induction false} HistoryUnchanged(t: Table, ops: seq<Op>, g: Group, c: Conn)
    requires g in t && c in t[g] && Ended(c)
    requires forall i :: 0 <= i < |ops| ==> !Drops(ops[i], c)
    ensures g in RunAll(t, ops) && c in RunAll(t, ops)[g]
    decreases |ops|
  {
    if ops != [] {
      HistoryStep(t, ops[0], g, c);
      assert forall i :: 0 <= i < |ops| - 1 ==> ops[1..][i] == ops[i + 1];
      HistoryUnchanged(Step(t, ops[0]), ops[1..], g, c);
    }
  }

  /** Only time removes history: cleaning keeps every live entry and every entry within its grace. */
  lemma CleanKeeps(t: Table, cutoff: nat, g: Group, c: Conn)
    requires g in t
    ensures (g in DoClean(t, cutoff) && c in DoClean(t, cutoff)[g]) <==> c in t[g] && !(Ended(c) && c.endTime < cutoff)
  {
    RetainedIsFilter(t[g], cutoff);
  }

  predicate LiveAs(l: seq<Conn>, key: Key, instance: nat) {
    exists i :: 0 <= i < |l| && l[i].key == key && l[i].instance == instance && !Ended(l[i])
  }

  lemma EvolvedLive(a: seq<Conn>, b: seq<Conn>, c: Conn)
    requires Evolves(a, b) && c in b && !Ended(c)
    ensures LiveAs(a, c.key, c.instance)
  {
    var i :| 0 <= i < |b| && b[i] == c;
    assert a[i].key == c.key && a[i].instance == c.instance;
  }

  /** No operation revives an entry: what is live afterwards was live before or has just been inserted. */
  lemma RevivesNothing(t: Table, op: Op, g: Group, c: Conn)
    requires g in Step(t, op) && c in Step(t, op)[g] && !Ended(c)
    ensures (g in t && LiveAs(t[g], c.key, c.instance)) || (op.OpInsert? && c == op.conn)
  {
    match op
    case OpInsert(d, merge) =>
      if First(GroupOf(t, Small(d.key)), Live(d.key, None)).Some? {
        EditInEvolves(t, d.key, Live(d.key, None), merge);
        EvolvedLive(t[g], Step(t, op)[g], c);
      } else if g == Small(d.key) {
        InsertMembers(GroupOf(t, g), d);
      }
    case OpClean(now) => RetainedIsFilter(t[g], Cutoff(now));
    case OpClear => assert false;
    case _ =>
      StepEvolves(t, op);
      EvolvedLive(t[g], Step(t, op)[g], c);
  }

  predicate Inserts(ops: seq<Op>, key: Key, instance: nat) {
    exists i :: 0 <= i < |ops| && ops[i].OpInsert? && ops[i].conn.key == key && ops[i].conn.instance == instance
  }

  /** Nor does any run: a number is live at its end only if it was at its start or was inserted on the way. */
  lemma {:induction false} NoRevival(t: Table, ops: seq<Op>, g: Group, c: Conn)
    requires g in RunAll(t, ops) && c in RunAll(t, ops)[g] && !Ended(c)
    ensures (g in t && LiveAs(t[g], c.key, c.instance)) || Inserts(ops, c.key, c.instance)
    decreases |ops|
  {
    if ops == [] {
      var i :| 0 <= i < |t[g]| && t[g][i] == c;
    } else {
      var u := Step(t, ops[0]);
      NoRevival(u, ops[1..], g, c);
      if Inserts(ops[1..], c.key, c.instance) {
        var i :| 0 <= i < |ops| - 1 && ops[1..][i].OpInsert? && ops[1..][i].conn.key == c.key
                 && ops[1..][i].conn.instance == c.instance;
        assert ops[i + 1] == ops[1..][i];
      } else {
        var i :| 0 <= i < |u[g]| && u[g][i].key == c.key && u[g][i].instance == c.instance && !Ended(u[g][i]);
        RevivesNothing(t, ops[0], g, u[g][i]);
        if ops[0].OpInsert? && u[g][i] == ops[0].conn {
          assert Inserts(ops, c.key, c.instance);
        }
      }
    }
  }

  // ---- what registering answers -----------------------------------------------------------------------

  function NumberOf(r: Result<nat, nat>): nat {
    match r case Ok(n) => n case Err(n) => n
  }

  /** The number of a live entry of this tuple. */
  predicate LiveIn(t: Table, key: Key, n: nat) {
    LiveAs(GroupOf(t, Small(key)), key, n)
  }

  lemma OneLive(l: seq<Conn>, key: Key, n: nat, m: nat)
    requires Pairwise(l) && LiveAs(l, key, n) && LiveAs(l, key, m)
    ensures n == m
  {
    var i :| 0 <= i < |l| && l[i].key == key && l[i].instance == n && !Ended(l[i]);
    var j :| 0 <= j < |l| && l[j].key == key && l[j].instance == m && !Ended(l[j]);
  }

  lemma {:induction false} EditLives(l: seq<Conn>, q: Query, e: Edit)
    requires !e.EndAt?
    ensures |EditFirst(l, q, e)| == |l|
    ensures forall i :: 0 <= i < |l| ==>
                          var d := EditFirst(l, q, e)[i];
                          d.key == l[i].key && d.instance == l[i].instance && Ended(d) == Ended(l[i])
  {
    if l != [] {
      EditLives(l[1..], q, e);
    }
  }

  lemma LiveMember(l: seq<Conn>, key: Key, n: nat)
    ensures LiveAs(l, key, n) <==> exists c :: c in l && c.key == key && c.instance == n && !Ended(c)
  {
    if c :| c in l && c.key == key && c.instance == n && !Ended(c) {
      var i :| 0 <= i < |l| && l[i] == c;
    }
  }

  lemma UpdateChooses(l: seq<Conn>, key: Key, merge: Edit, n: nat)
    requires Pairwise(l) && First(l, Live(key, None)).Some? && !merge.EndAt?
    ensures LiveAs(l, key, First(l, Live(key, None)).value.instance)
    ensures LiveAs(EditFirst(l, Live(key, None), merge), key, n) <==> n == First(l, Live(key, None)).value.instance
  {
    var c := First(l, Live(key, None)).value;
    EditLives(l, Live(key, None), merge);
    LiveMember(l, key, c.instance);
    var u := EditFirst(l, Live(key, None), merge);
    var i :| 0 <= i < |l| && l[i].key == key && l[i].instance == c.instance && !Ended(l[i]);
    assert LiveAs(u, key, c.instance) by { assert u[i].key == key; }
    if LiveAs(u, key, n) {
      var j :| 0 <= j < |u| && u[j].key == key && u[j].instance == n && !Ended(u[j]);
      assert LiveAs(l, key, n) by { assert l[j].key == key; }
      OneLive(l, key, n, c.instance);
    }
  }

  lemma InsertionChooses(l: seq<Conn>, c: Conn, n: nat)
    requires First(l, Live(c.key, None)).None? && !Ended(c)
    ensures !LiveAs(l, c.key, n)
    ensures LiveAs(Insert(l, c), c.key, n) <==> n == c.instance
  {
    LiveMember(l, c.key, n);
    LiveMember(Insert(l, c), c.key, n);
    InsertMembers(l, c);
    forall d | d in l ensures !(d.key == c.key && !Ended(d)) {
      assert !Hits(Live(c.key, None), d);
    }
  }

  /**
   An answer names the live entry its tuple had, if it had one, and always the one live entry
   its tuple has now.
   */
  ghost predicate Answers(t: Table, u: Table, key: Key, r: Result<nat, nat>) {
    && (forall n: nat :: LiveIn(t, key, n) ==> r == Err(n))
    && (r.Err? ==> LiveIn(t, key, r.error))
    && (forall n: nat :: LiveIn(u, key, n) <==> n == NumberOf(r))
  }

  /**
   Registering refuses a candidate exactly when its tuple has a live entry, and the number it
   answers with is that of the one live entry the tuple has afterwards.
   */
  lemma RegisterChooses(t: Table, ipv6: bool, c: Conn, merge: Edit)
    requires TableOk(t, ipv6) && !Ended(c) && !merge.EndAt?
    ensures var (u, r) := DoInsert(t, c, merge); Answers(t, u, c.key, r) && (r.Ok? ==> r.value == c.instance)
  {
    var l := GroupOf(t, Small(c.key));
    assert Pairwise(l);
    var existing := First(l, Live(c.key, None));
    var (u, r) := DoInsert(t, c, merge);
    if existing.Some? {
      assert GroupOf(u, Small(c.key)) == EditFirst(l, Live(c.key, None), merge) && r == Err(existing.value.instance);
      forall n: nat
        ensures LiveIn(t, c.key, n) ==> r == Err(n)
        ensures LiveIn(u, c.key, n) <==> n == NumberOf(r)
      {
        UpdateChooses(l, c.key, merge, n);
        if LiveAs(l, c.key, n) { OneLive(l, c.key, n, existing.value.instance); }
      }
      UpdateChooses(l, c.key, merge, 0);
    } else {
      assert GroupOf(u, Small(c.key)) == Insert(l, c) && r == Ok(c.instance);
      forall n: nat
        ensures LiveIn(t, c.key, n) ==> r == Err(n)
        ensures LiveIn(u, c.key, n) <==> n == NumberOf(r)
      {
        InsertionChooses(l, c, n);
      }
    }
  }

  // ---- what reading answers and keeps alive ----------------------------------------------------------------

  /** Not idle for longer than since `now`, or not subject to idling at all. */
  predicate Spared(c: Conn, now: nat) {
    c.native || !c.idle || c.accessed >= now
  }

  lemma {:induction false} EditedAt(l: seq<Conn>, q: Query, e: Edit, i: nat)
    requires i < |l|
    ensures |EditFirst(l, q, e)| == |l|
    ensures EditFirst(l, q, e)[i] == l[i] || EditFirst(l, q, e)[i] == Apply(e, l[i])
  {
    if Hits(q, l[0]) {
      assert EditFirst(l, q, e) == [Apply(e, l[0])] + l[1..];
    } else if i > 0 {
      EditedAt(l[1..], q, e, i - 1);
    } else {
      EditKeepsLength(l[1..], q, e);
    }
  }

  lemma {:induction false} EditKeepsLength(l: seq<Conn>, q: Query, e: Edit)
    ensures |EditFirst(l, q, e)| == |l|
  {
    if l != [] { EditKeepsLength(l[1..], q, e); }
  }

  lemma {:induction false} EditedStored(l: seq<Conn>, q: Query, e: Edit)
    requires First(l, q).Some?
    ensures Apply(e, First(l, q).value) in EditFirst(l, q, e)
  {
    if Hits(q, l[0]) {
      assert EditFirst(l, q, e)[0] == Apply(e, l[0]);
    } else {
      EditedStored(l[1..], q, e);
    }
  }

  /**
   A read answers with the best-ranked eligible entry of the tuple's group, the earliest among
   equals, and misses only when none is eligible. The entry is stored as it is returned.
   */
  lemma ReadIsBest(t: Table, key: Key, scan: bool, fallback: bool, now: nat) returns (i: nat)
    ensures var l := GroupOf(t, Small(key));
            var (u, r) := DoRead(t, key, scan, fallback, now);
            && (r.None? <==> forall c :: c in l ==> !Eligible(c, key, scan, fallback))
            && (r.None? ==> u == t)
            && (r.Some? ==>
                  && i < |l| && Eligible(l[i], key, scan, fallback)
                  && (forall j :: 0 <= j < |l| && Eligible(l[j], key, scan, fallback) ==>
                        Rank(l[i], key) < Rank(l[j], key) || (Rank(l[i], key) == Rank(l[j], key) && i <= j))
                  && r.value.key == l[i].key && r.value.instance == l[i].instance && r.value.verdict == l[i].verdict
                  && r.value.endTime == l[i].endTime
                  && (!Ended(l[i]) ==> Spared(r.value, now))
                  && r.value in GroupOf(u, Small(key)))
  {
    i := WinnerIsBest(GroupOf(t, Small(key)), key, scan, fallback);
    var w := Winner(GroupOf(t, Small(key)), key, scan, fallback);
    if w.Some? {
      EditedStored(t[Small(key)], w.value, Refresh(now));
    }
  }

  /** Operations that end nothing but what has been idle for a minute by then, at times from `now` to a minute later. */
  predicate Gentle(op: Op, now: nat) {
    match op
    case OpInsert(_, merge) => GentleEdit(merge, now)
    case OpRead(_, _, _, at) => at >= now
    case OpEditExact(_, _, e) => GentleEdit(e, now)
    case OpEditInstance(_, _, _, e) => GentleEdit(e, now)
    case OpEndGroup(_, _, _) => false
    case OpEndInactive(at) => at <= now + 60000
    case OpClean(_) => true
    case OpClear => false
  }

  predicate GentleEdit(e: Edit, now: nat) {
    !e.EndAt? && (e.Refresh? || e.SetVerdict? ==> e.now >= now)
  }

  /** This entry is live and has been used since `now`. */
  predicate Kept(c: Conn, key: Key, n: nat, now: nat) {
    c.key == key && c.instance == n && !Ended(c) && Spared(c, now)
  }

  ghost predicate KeptIn(t: Table, g: Group, key: Key, n: nat, now: nat) {
    g in t && exists i :: 0 <= i < |t[g]| && Kept(t[g][i], key, n, now)
  }

  lemma EditKeeps(t: Table, g: Group, tuple: Key, q: Query, e: Edit, key: Key, n: nat, now: nat)
    requires KeptIn(t, g, key, n, now) && GentleEdit(e, now)
    ensures KeptIn(EditIn(t, tuple, q, e), g, key, n, now)
  {
    var i :| 0 <= i < |t[g]| && Kept(t[g][i], key, n, now);
    if g == Small(tuple) {
      EditedAt(t[g], q, e, i);
      assert Kept(EditFirst(t[g], q, e)[i], key, n, now);
    }
  }

  lemma InsertKeeps(t: Table, g: Group, c: Conn, key: Key, n: nat, now: nat)
    requires KeptIn(t, g, key, n, now)
    ensures KeptIn(t[Small(c.key) := Insert(GroupOf(t, Small(c.key)), c)], g, key, n, now)
  {
    if g == Small(c.key) {
      var i :| 0 <= i < |t[g]| && Kept(t[g][i], key, n, now);
      InsertMembers(t[g], c);
      assert t[g][i] in Insert(t[g], c);
    }
  }

  lemma {:induction false} EndAllAt(l: seq<Conn>, s: Selection, now: nat, i: nat)
    requires i < |l|
    ensures |EndAll(l, s, now)| == |l| && EndAll(l, s, now)[i] == EndIf(l[i], s, now)
  {
    if i > 0 {
      EndAllAt(l[1..], s, now, i - 1);
    } else {
      EndAllEvolves(l, s, now);
    }
  }

  lemma EndInactiveKeeps(t: Table, g: Group, at: nat, key: Key, n: nat, now: nat)
    requires KeptIn(t, g, key, n, now) && at <= now + 60000
    ensures KeptIn(DoEndInactive(t, Cutoff(at), at), g, key, n, now)
  {
    var i :| 0 <= i < |t[g]| && Kept(t[g][i], key, n, now);
    EndAllAt(t[g], Inactive(Cutoff(at)), at, i);
    assert Kept(DoEndInactive(t, Cutoff(at), at)[g][i], key, n, now);
  }

  lemma CleanKeepsLive(t: Table, g: Group, cutoff: nat, key: Key, n: nat, now: nat)
    requires KeptIn(t, g, key, n, now)
    ensures KeptIn(DoClean(t, cutoff), g, key, n, now)
  {
    var i :| 0 <= i < |t[g]| && Kept(t[g][i], key, n, now);
    CleanKeeps(t, cutoff, g, t[g][i]);
    var j :| 0 <= j < |DoClean(t, cutoff)[g]| && DoClean(t, cutoff)[g][j] == t[g][i];
  }

  lemma StepKeeps(t: Table, op: Op, g: Group, key: Key, n: nat, now: nat)
    requires KeptIn(t, g, key, n, now) && Gentle(op, now)
    ensures KeptIn(Step(t, op), g, key, n, now)
  {
    hide KeptIn;
    match op
    case OpInsert(c, merge) =>
      EditKeeps(t, g, c.key, Live(c.key, None), merge, key, n, now);
      InsertKeeps(t, g, c, key, n, now);
    case OpRead(tuple, scan, fallback, at) =>
      var w := Winner(GroupOf(t, Small(tuple)), tuple, scan, fallback);
      if w.Some? { EditKeeps(t, g, tuple, w.value, Refresh(at), key, n, now); }
    case OpEditExact(tuple, owner, e) => EditKeeps(t, g, tuple, Live(tuple, owner), e, key, n, now);
    case OpEditInstance(tuple, instance, scan, e) =>
      var w := InstanceQuery(GroupOf(t, Small(tuple)), tuple, instance, scan);
      if w.Some? { EditKeeps(t, g, tuple, w.value, e, key, n, now); }
    case OpEndInactive(at) => EndInactiveKeeps(t, g, at, key, n, now);
    case OpClean(at) => CleanKeepsLive(t, g, Cutoff(at), key, n, now);
  }

  lemma {:induction false} RunKeeps(t: Table, ops: seq<Op>, g: Group, key: Key, n: nat, now: nat)
    requires KeptIn(t, g, key, n, now) && forall i :: 0 <= i < |ops| ==> Gentle(ops[i], now)
    ensures KeptIn(RunAll(t, ops), g, key, n, now)
    decreases |ops|
  {
    hide KeptIn, Step, Gentle;
    if ops != [] {
      StepKeeps(t, ops[0], g, key, n, now);
      assert forall i :: 0 <= i < |ops| - 1 ==> ops[1..][i] == ops[i + 1];
      RunKeeps(Step(t, ops[0]), ops[1..], g, key, n, now);
    }
  }

  /**
   A live connection that a packet has just been matched to stays live over every run that ends
   nothing explicitly and expires idle entries up to a minute later.
   */
  lemma ReadKeepsAlive(t: Table, ipv6: bool, key: Key, scan: bool, fallback: bool, now: nat, ops: seq<Op>)
    requires TableOk(t, ipv6)
    requires var r := DoRead(t, key, scan, fallback, now).1; r.Some? && !Ended(r.value)
    requires forall i :: 0 <= i < |ops| ==> Gentle(ops[i], now)
    ensures var (u, r) := DoRead(t, key, scan, fallback, now);
            LiveIn(RunAll(u, ops), r.value.key, r.value.instance)
  {
    var i := ReadIsBest(t, key, scan, fallback, now);
    var (u, r) := DoRead(t, key, scan, fallback, now);
    var g := Small(key);
    assert ConnOk(t[g][i], g, ipv6) by { assert t[g][i] in t[g]; }
    var j :| 0 <= j < |u[g]| && u[g][j] == r.value;
    assert Kept(u[g][j], r.value.key, r.value.instance, now);
    RunKeeps(u, ops, g, r.value.key, r.value.instance, now);
  }

  // ---- which connections an end path ends ------------------------------------------------------------------

  lemma {:induction false} CopiesMeaning(l: seq<Conn>, s: Selection, now: nat)
    ensures forall c :: c in EndedCopies(l, s, now) <==> exists d :: d in l && Selects(s, d) && c == d.(endTime := now)
  {
    if l != [] {
      CopiesMeaning(l[1..], s, now);
      assert l == [l[0]] + l[1..];
    }
  }

  /**
   Closing a local endpoint ends exactly the live connections of its protocol and port that have
   the closed address, unless the closure names none, and belong to the closing process or to
   nobody known; a closure by an unknown handle spares natively tracked ones. Each ended
   connection is returned with its end time.
   */
  lemma EndpointClosureEnds(t: Table, g: Group, address: Option<Address>, process: Option<nat>, untrackedOnly: bool,
                            now: nat, c: Conn)
    requires g in t && c in t[g] && now > 0
    ensures var (u, r) := DoEndGroup(t, g, OnEndpoint(address, process, untrackedOnly), now);
            var hit := && c.endTime == 0
                       && (address == None || address == Some(c.key.localAddress))
                       && (process == None || c.process == 0 || process == Some(c.process))
                       && !(untrackedOnly && c.native);
            && r.Some?
            && (hit ==> c.(endTime := now) in u[g] && c.(endTime := now) in r.value)
            && (!hit ==> c in u[g])
  {
    var s := OnEndpoint(address, process, untrackedOnly);
    var i :| 0 <= i < |t[g]| && t[g][i] == c;
    EndAllAt(t[g], s, now, i);
    CopiesMeaning(t[g], s, now);
    assert EndAll(t[g], s, now)[i] in EndAll(t[g], s, now);
  }

  /** Expiry ends exactly the live fallback entries that may idle and were last used more than a minute ago. */
  lemma ExpiryEnds(t: Table, now: nat, g: Group, c: Conn)
    requires g in t && c in t[g] && now > 0
    ensures var u := DoEndInactive(t, Cutoff(now), now);
            var hit := c.endTime == 0 && !c.native && c.idle && c.accessed + 60000 < now;
            g in u && (if hit then c.(endTime := now) else c) in u[g]
  {
    var i :| 0 <= i < |t[g]| && t[g][i] == c;
    EndAllAt(t[g], Inactive(Cutoff(now)), now, i);
    assert DoEndInactive(t, Cutoff(now), now)[g][i] in DoEndInactive(t, Cutoff(now), now)[g];
  }
}
