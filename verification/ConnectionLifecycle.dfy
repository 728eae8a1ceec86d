/**
 The connection maps of both families implement the generation map of the lifecycle
 protocol: every operation on one family's map is the protocol's effect on the generations,
 and the other family's map goes on representing its own.
 */
module ConnectionLifecycle {
  import opened Net
  import opened ConnectionTable
  import opened ConnectionRuns
  import L = Lifecycle

  type Gens = map<nat, L.Generation>

  function Abstract(c: Conn): L.Generation {
    L.Generation(c.key, c.verdict, Ended(c))
  }

  predicate Stored(t: Table, c: Conn) {
    Small(c.key) in t && c in t[Small(c.key)]
  }

  /** The table holds exactly the generations of its family. */
  ghost predicate Represents(t: Table, ipv6: bool, gens: Gens) {
    && (forall c :: Stored(t, c) ==> c.instance in gens && gens[c.instance] == Abstract(c))
    && (forall i :: i in gens && IsIpv6(gens[i].key) == ipv6 ==> exists c :: Stored(t, c) && c.instance == i)
  }

  /** Nothing changes among the generations of the other family. */
  ghost predicate FamilyOnly(gens: Gens, after: Gens, ipv6: bool) {
    && (forall i :: i in gens && IsIpv6(gens[i].key) != ipv6 ==> i in after && after[i] == gens[i])
    && (forall i :: i in after && IsIpv6(after[i].key) != ipv6 ==> i in gens && after[i] == gens[i])
  }

  /** The new table represents the new generations, and the other family is left alone. */
  ghost predicate Advances(u: Table, ipv6: bool, gens: Gens, after: Gens) {
    Represents(u, ipv6, after) && FamilyOnly(gens, after, ipv6)
  }

  /** A table goes on representing its family whatever happens to the other one. */
  lemma OtherFamilyKept(t: Table, ipv6: bool, gens: Gens, after: Gens)
    requires TableOk(t, !ipv6) && Represents(t, !ipv6, gens) && FamilyOnly(gens, after, ipv6)
    ensures Represents(t, !ipv6, after)
  {
    forall c | Stored(t, c) ensures c.instance in after && after[c.instance] == Abstract(c) {
      StoredIn(t, !ipv6, Small(c.key), c);
    }
  }

  lemma StoredIn(t: Table, ipv6: bool, g: Group, c: Conn)
    requires TableOk(t, ipv6) && g in t && c in t[g]
    ensures Stored(t, c) && ConnOk(c, g, ipv6)
  {
  }

  /** Finding one live instance by tuple or alias is the protocol's test. */
  lemma LookupAgrees(t: Table, ipv6: bool, s: L.State, key: Key, i: nat)
    requires TableOk(t, ipv6) && Represents(t, ipv6, s.gens) && IsIpv6(key) == ipv6
    ensures var r := LookUpInstance(t, key, i, IsRedirectPort(key.remotePort, s.ignoreSpecialPorts));
            && (r.Some? <==> L.LiveMatching(s, key, i))
            && (r.Some? ==> Stored(t, r.value) && r.value.instance == i)
  {
    var l := GroupOf(t, Small(key));
    var scan := IsRedirectPort(key.remotePort, s.ignoreSpecialPorts);
    var r := LookUpInstance(t, key, i, scan);
    if r.Some? {
      StoredIn(t, ipv6, Small(key), r.value);
    }
    if L.LiveMatching(s, key, i) {
      var c :| Stored(t, c) && c.instance == i;
      StoredIn(t, ipv6, Small(c.key), c);
      assert c in l;
      assert Hits(Live(key, Some(i)), c) || (scan && Hits(Query(key, true, false, Some(i)), c));
    }
  }

  // ---- operations that change entries by number --------------------------------------------------

  function Touch(c: Conn, who: set<nat>, e: Edit): Conn {
    if c.instance in who then Apply(e, c) else c
  }

  /** The second table holds what the first one does, with the edit applied to the entries of these numbers. */
  ghost predicate Rewrites(t: Table, u: Table, who: set<nat>, e: Edit) {
    && (forall c :: Stored(t, c) ==> Stored(u, Touch(c, who, e)))
    && (forall d :: Stored(u, d) ==> exists c :: Stored(t, c) && d == Touch(c, who, e))
  }

  ghost predicate Numbers(t: Table, who: set<nat>) {
    forall i :: i in who ==> exists c :: Stored(t, c) && c.instance == i
  }

  /** What an edit does to a generation: it sets a verdict, ends it, or is of no concern to the protocol. */
  function Edited(g: L.Generation, e: Edit): L.Generation {
    match e
    case SetVerdict(verdict, _) => g.(verdict := verdict)
    case EndAt(now) => g.(ended := now > 0)
    case _ => g
  }

  function Changed(gens: Gens, who: set<nat>, e: Edit): Gens {
    map i | i in gens :: if i in who then Edited(gens[i], e) else gens[i]
  }

  lemma TouchAbstract(c: Conn, who: set<nat>, e: Edit)
    ensures Touch(c, who, e).instance == c.instance
    ensures Abstract(Touch(c, who, e)) == if c.instance in who then Edited(Abstract(c), e) else Abstract(c)
  {
  }

  lemma RewritesRepresent(t: Table, u: Table, ipv6: bool, gens: Gens, who: set<nat>, e: Edit)
    requires Represents(t, ipv6, gens) && Rewrites(t, u, who, e)
    ensures Represents(u, ipv6, Changed(gens, who, e))
  {
    hide Touch, Abstract;
    var after := Changed(gens, who, e);
    forall d | Stored(u, d) ensures d.instance in after && after[d.instance] == Abstract(d) {
      var c :| Stored(t, c) && d == Touch(c, who, e);
      TouchAbstract(c, who, e);
    }
    forall i | i in after && IsIpv6(after[i].key) == ipv6 ensures exists d :: Stored(u, d) && d.instance == i {
      var c :| Stored(t, c) && c.instance == i;
      TouchAbstract(c, who, e);
      assert Stored(u, Touch(c, who, e));
    }
  }

  lemma ChangedFamily(t: Table, ipv6: bool, gens: Gens, who: set<nat>, e: Edit)
    requires TableOk(t, ipv6) && Represents(t, ipv6, gens) && Numbers(t, who)
    ensures FamilyOnly(gens, Changed(gens, who, e), ipv6)
  {
    forall i | i in who ensures i in gens && IsIpv6(gens[i].key) == ipv6 {
      var c :| Stored(t, c) && c.instance == i;
      StoredIn(t, ipv6, Small(c.key), c);
    }
  }

  lemma RewritesAdvance(t: Table, u: Table, ipv6: bool, gens: Gens, who: set<nat>, e: Edit)
    requires TableOk(t, ipv6) && Represents(t, ipv6, gens) && Rewrites(t, u, who, e) && Numbers(t, who)
    ensures Advances(u, ipv6, gens, Changed(gens, who, e))
  {
    RewritesRepresent(t, u, ipv6, gens, who, e);
    ChangedFamily(t, ipv6, gens, who, e);
  }

  lemma DistinctNumbers(l: seq<Conn>, c: Conn, d: Conn)
    requires Pairwise(l) && c in l && d in l && c != d
    ensures c.instance != d.instance
  {
    var i :| 0 <= i < |l| && l[i] == c;
    var j :| 0 <= j < |l| && l[j] == d;
    assert if i < j then PairOk(l[i], l[j]) else PairOk(l[j], l[i]);
  }

  /** An instance number names one stored connection. */
  lemma OneNumberEach(t: Table, ipv6: bool, c: Conn, d: Conn)
    requires TableOk(t, ipv6) && Stored(t, c) && Stored(t, d) && c != d
    ensures c.instance != d.instance
  {
    HasIdMember(t[Small(c.key)], c);
    HasIdMember(t[Small(d.key)], d);
    if Small(c.key) == Small(d.key) {
      DistinctNumbers(t[Small(c.key)], c, d);
    }
  }

  // ---- editing the first hit -----------------------------------------------------------------------

  lemma {:induction false} EditMembers(l: seq<Conn>, q: Query, e: Edit)
    requires Pairwise(l) && First(l, q).Some?
    ensures forall d :: d in EditFirst(l, q, e) <==>
            d == Apply(e, First(l, q).value) || (d in l && d != First(l, q).value)
  {
    assert l == [l[0]] + l[1..];
    PairwiseCons(l[0], l[1..]);
    if Hits(q, l[0]) {
      assert l[0] !in l[1..];
    } else {
      EditMembers(l[1..], q, e);
      assert First(l, q).value in l[1..];
    }
  }

  /** One stored connection replaced by its edited copy. */
  lemma EditStored(t: Table, ipv6: bool, key: Key, q: Query, e: Edit)
    requires TableOk(t, ipv6) && First(GroupOf(t, Small(key)), q).Some?
    ensures var c := First(GroupOf(t, Small(key)), q).value;
            && Stored(t, c)
            && forall d :: Stored(EditIn(t, key, q, e), d) <==> d == Apply(e, c) || (Stored(t, d) && d != c)
  {
    var g := Small(key);
    var c := First(t[g], q).value;
    EditMembers(t[g], q, e);
    StoredIn(t, ipv6, g, c);
    forall d | Stored(t, d) && d != c ensures Stored(EditIn(t, key, q, e), d) {
    }
  }

  lemma EditRewrites(t: Table, ipv6: bool, key: Key, q: Query, e: Edit)
    requires TableOk(t, ipv6) && First(GroupOf(t, Small(key)), q).Some?
    ensures var who := {First(GroupOf(t, Small(key)), q).value.instance};
            Rewrites(t, EditIn(t, key, q, e), who, e) && Numbers(t, who)
  {
    hide TableOk, EditIn, Apply;
    var c := First(GroupOf(t, Small(key)), q).value;
    var u := EditIn(t, key, q, e);
    EditStored(t, ipv6, key, q, e);
    forall d | Stored(t, d) ensures Stored(u, Touch(d, {c.instance}, e)) {
      if d != c { OneNumberEach(t, ipv6, c, d); }
    }
    forall d | Stored(u, d) ensures exists b :: Stored(t, b) && d == Touch(b, {c.instance}, e) {
      if d == Apply(e, c) {
        assert d == Touch(c, {c.instance}, e);
      } else {
        OneNumberEach(t, ipv6, c, d);
        assert d == Touch(d, {c.instance}, e);
      }
    }
  }

  lemma Unchanged(t: Table, ipv6: bool, gens: Gens, e: Edit)
    requires Represents(t, ipv6, gens)
    ensures Advances(t, ipv6, gens, gens) && Changed(gens, {}, e) == gens
  {
  }

  /** Editing the first hit of a query, if there is one, edits that generation. */
  lemma EditAdvances(t: Table, ipv6: bool, gens: Gens, key: Key, q: Query, e: Edit)
    requires TableOk(t, ipv6) && Represents(t, ipv6, gens)
    ensures var c := First(GroupOf(t, Small(key)), q);
            if c.Some? then Advances(EditIn(t, key, q, e), ipv6, gens, Changed(gens, {c.value.instance}, e))
            else Advances(t, ipv6, gens, gens)
  {
    hide TableOk, EditIn, Represents, Advances, Changed, Rewrites, Numbers;
    var c := First(GroupOf(t, Small(key)), q);
    if c.Some? {
      EditRewrites(t, ipv6, key, q, e);
      RewritesAdvance(t, EditIn(t, key, q, e), ipv6, gens, {c.value.instance}, e);
    } else {
      Unchanged(t, ipv6, gens, e);
    }
  }

  /** The live generations of a tuple, or that one of them. */
  function Owned(gens: Gens, key: Key, owner: Option<nat>): set<nat> {
    set i | i in L.LiveTwin(gens, key) && (owner.Some? ==> i == owner.value)
  }

  lemma FoundIfLive(t: Table, ipv6: bool, gens: Gens, key: Key, owner: Option<nat>, i: nat)
    requires Represents(t, ipv6, gens) && IsIpv6(key) == ipv6 && i in Owned(gens, key, owner)
    ensures exists d :: d in GroupOf(t, Small(key)) && Hits(Live(key, owner), d) && d.instance == i
  {
    var d :| Stored(t, d) && d.instance == i;
    assert d in GroupOf(t, Small(key)) && Hits(Live(key, owner), d);
  }

  lemma LiveHitsAgree(l: seq<Conn>, key: Key, owner: Option<nat>, c: Conn, d: Conn)
    requires Pairwise(l) && c in l && d in l && Hits(Live(key, owner), c) && Hits(Live(key, owner), d)
    ensures c == d
  {
    var i :| 0 <= i < |l| && l[i] == c;
    var j :| 0 <= j < |l| && l[j] == d;
  }

  /** The live entry of a tuple, of any number or of a given one, is the protocol's. */
  lemma OwnedAgrees(t: Table, ipv6: bool, gens: Gens, key: Key, owner: Option<nat>)
    requires TableOk(t, ipv6) && Represents(t, ipv6, gens) && IsIpv6(key) == ipv6
    ensures var c := First(GroupOf(t, Small(key)), Live(key, owner));
            Owned(gens, key, owner) == if c.Some? then {c.value.instance} else {}
  {
    var l := GroupOf(t, Small(key));
    var c := First(l, Live(key, owner));
    if c.Some? {
      StoredIn(t, ipv6, Small(key), c.value);
      assert c.value.instance in Owned(gens, key, owner);
    }
    forall i | i in Owned(gens, key, owner) ensures c.Some? && i == c.value.instance {
      FoundIfLive(t, ipv6, gens, key, owner, i);
      var d :| d in l && Hits(Live(key, owner), d) && d.instance == i;
      LiveHitsAgree(l, key, owner, c.value, d);
    }
  }

  /** Changing the live entry of a tuple changes the protocol's live generation of that tuple. */
  lemma ExactAdvances(t: Table, ipv6: bool, gens: Gens, key: Key, owner: Option<nat>, e: Edit)
    requires TableOk(t, ipv6) && Represents(t, ipv6, gens) && IsIpv6(key) == ipv6
    ensures Advances(DoEditExact(t, key, owner, e).0, ipv6, gens, Changed(gens, Owned(gens, key, owner), e))
  {
    hide TableOk, Represents, Advances, Changed, EditIn;
    OwnedAgrees(t, ipv6, gens, key, owner);
    EditAdvances(t, ipv6, gens, key, Live(key, owner), e);
    Unchanged(t, ipv6, gens, e);
  }

  /** Changing one instance, found by tuple or alias, changes that generation exactly when the protocol finds it. */
  lemma InstanceAdvances(t: Table, ipv6: bool, s: L.State, key: Key, i: nat, e: Edit)
    requires TableOk(t, ipv6) && Represents(t, ipv6, s.gens) && IsIpv6(key) == ipv6
    ensures var u := DoEditInstance(t, key, i, IsRedirectPort(key.remotePort, s.ignoreSpecialPorts), e).0;
            Advances(u, ipv6, s.gens, Changed(s.gens, if L.LiveMatching(s, key, i) then {i} else {}, e))
  {
    hide TableOk, Represents, Advances, Changed, EditIn;
    var q := InstanceQuery(GroupOf(t, Small(key)), key, i, IsRedirectPort(key.remotePort, s.ignoreSpecialPorts));
    LookupAgrees(t, ipv6, s, key, i);
    Unchanged(t, ipv6, s.gens, e);
    if q.Some? {
      EditAdvances(t, ipv6, s.gens, key, q.value, e);
    }
  }

  // ---- ending selected entries ------------------------------------------------------------------------

  /** The numbers of the live entries an end path selects in these groups. */
  function Chosen(t: Table, groups: set<Group>, s: Selection): set<nat> {
    set g, i | g in groups && g in t && 0 <= i < |t[g]| && Selects(s, t[g][i]) :: t[g][i].instance
  }

  /** A pass over these groups that ends what it selects. */
  ghost predicate EndsIn(t: Table, u: Table, groups: set<Group>, s: Selection, now: nat) {
    u.Keys == t.Keys && forall g :: g in t ==> u[g] == if g in groups then EndAll(t[g], s, now) else t[g]
  }

  lemma {:induction false} EndAllMembers(l: seq<Conn>, s: Selection, now: nat)
    ensures |EndAll(l, s, now)| == |l|
    ensures forall i :: 0 <= i < |l| ==> EndAll(l, s, now)[i] == EndIf(l[i], s, now)
  {
    if l != [] {
      EndAllMembers(l[1..], s, now);
      assert forall i :: 0 < i < |l| ==> l[i] == l[1..][i - 1];
    }
  }

  lemma ChosenIs(t: Table, ipv6: bool, groups: set<Group>, s: Selection, c: Conn)
    requires TableOk(t, ipv6) && Stored(t, c)
    ensures c.instance in Chosen(t, groups, s) <==> Small(c.key) in groups && Selects(s, c)
  {
    var g := Small(c.key);
    if g in groups && Selects(s, c) {
      var i :| 0 <= i < |t[g]| && t[g][i] == c;
      assert t[g][i].instance in Chosen(t, groups, s);
    }
    if c.instance in Chosen(t, groups, s) {
      var h, i :| h in groups && h in t && 0 <= i < |t[h]| && Selects(s, t[h][i]) && t[h][i].instance == c.instance;
      StoredIn(t, ipv6, h, t[h][i]);
      if t[h][i] != c { OneNumberEach(t, ipv6, t[h][i], c); }
    }
  }

  lemma EndsTouch(t: Table, u: Table, ipv6: bool, groups: set<Group>, s: Selection, now: nat, g: Group, i: nat)
    requires TableOk(t, ipv6) && EndsIn(t, u, groups, s, now) && g in t && i < |t[g]|
    ensures |u[g]| == |t[g]| && u[g][i] == Touch(t[g][i], Chosen(t, groups, s), EndAt(now))
  {
    hide Chosen;
    EndAllMembers(t[g], s, now);
    StoredIn(t, ipv6, g, t[g][i]);
    ChosenIs(t, ipv6, groups, s, t[g][i]);
  }

  lemma EndsLength(t: Table, u: Table, groups: set<Group>, s: Selection, now: nat, g: Group)
    requires EndsIn(t, u, groups, s, now) && g in t
    ensures |u[g]| == |t[g]|
  {
    EndAllMembers(t[g], s, now);
  }

  lemma EndsRewrites(t: Table, u: Table, ipv6: bool, groups: set<Group>, s: Selection, now: nat)
    requires TableOk(t, ipv6) && EndsIn(t, u, groups, s, now)
    ensures Rewrites(t, u, Chosen(t, groups, s), EndAt(now))
  {
    hide TableOk, Chosen;
    var who := Chosen(t, groups, s);
    forall c | Stored(t, c) ensures Stored(u, Touch(c, who, EndAt(now))) {
      var g := Small(c.key);
      var i :| 0 <= i < |t[g]| && t[g][i] == c;
      EndsTouch(t, u, ipv6, groups, s, now, g, i);
      assert u[g][i] in u[g];
    }
    forall d | Stored(u, d) ensures exists c :: Stored(t, c) && d == Touch(c, who, EndAt(now)) {
      var g := Small(d.key);
      var i :| 0 <= i < |u[g]| && u[g][i] == d;
      EndsLength(t, u, groups, s, now, g);
      EndsTouch(t, u, ipv6, groups, s, now, g, i);
      assert t[g][i] in t[g];
      assert Stored(t, t[g][i]);
    }
  }

  lemma ChosenNumbers(t: Table, ipv6: bool, groups: set<Group>, s: Selection)
    requires TableOk(t, ipv6)
    ensures Numbers(t, Chosen(t, groups, s))
  {
    forall n | n in Chosen(t, groups, s) ensures exists c :: Stored(t, c) && c.instance == n {
      var g, i :| g in groups && g in t && 0 <= i < |t[g]| && Selects(s, t[g][i]) && t[g][i].instance == n;
      StoredIn(t, ipv6, g, t[g][i]);
    }
  }

  lemma EndsAdvance(t: Table, u: Table, ipv6: bool, gens: Gens, groups: set<Group>, s: Selection, now: nat)
    requires TableOk(t, ipv6) && Represents(t, ipv6, gens) && EndsIn(t, u, groups, s, now)
    ensures Advances(u, ipv6, gens, Changed(gens, Chosen(t, groups, s), EndAt(now)))
  {
    hide TableOk, Represents, Rewrites, Numbers, EndsIn, Chosen, Changed, Advances;
    EndsRewrites(t, u, ipv6, groups, s, now);
    ChosenNumbers(t, ipv6, groups, s);
    RewritesAdvance(t, u, ipv6, gens, Chosen(t, groups, s), EndAt(now));
  }

  /** What is chosen is live and of this family, so the protocol ends all of it. */
  lemma ChosenLive(t: Table, ipv6: bool, gens: Gens, groups: set<Group>, s: Selection)
    requires TableOk(t, ipv6) && Represents(t, ipv6, gens)
    ensures L.LiveAmong(gens, ipv6, Chosen(t, groups, s)) == Chosen(t, groups, s)
  {
    forall n | n in Chosen(t, groups, s) ensures L.Live(gens, n) && IsIpv6(gens[n].key) == ipv6 {
      var g, i :| g in groups && g in t && 0 <= i < |t[g]| && Selects(s, t[g][i]) && t[g][i].instance == n;
      StoredIn(t, ipv6, g, t[g][i]);
    }
  }

  lemma EndedIsChanged(gens: Gens, who: set<nat>, now: nat)
    requires now > 0
    ensures Changed(gens, who, EndAt(now)) == L.EndGens(gens, who)
  {
  }

  /** Ending by local endpoint or by inactivity is the protocol's end of the chosen generations. */
  lemma EndSomeAgrees(t: Table, u: Table, ipv6: bool, s: L.State, groups: set<Group>, sel: Selection, now: nat)
    requires TableOk(t, ipv6) && Represents(t, ipv6, s.gens) && EndsIn(t, u, groups, sel, now) && now > 0
    ensures Advances(u, ipv6, s.gens, L.DoEndSome(s, ipv6, Chosen(t, groups, sel)).gens)
  {
    hide TableOk, Represents, EndsIn, Chosen, Advances;
    EndsAdvance(t, u, ipv6, s.gens, groups, sel, now);
    ChosenLive(t, ipv6, s.gens, groups, sel);
    EndedIsChanged(s.gens, Chosen(t, groups, sel), now);
  }

  // ---- ending a batch of exact instances --------------------------------------------------------------

  /** Those of a batch that name a live generation by its own tuple. */
  function Named(gens: Gens, batch: seq<(Key, nat)>): set<nat> {
    set k | k in batch && L.LiveExact(gens, L.Endpoint(k.0, k.1)) :: k.1
  }

  lemma NamedNext(gens: Gens, batch: seq<(Key, nat)>, key: Key, i: nat)
    ensures Named(gens, batch + [(key, i)]) == Named(gens, batch) + Owned(gens, key, Some(i))
  {
  }

  lemma EndAgain(gens: Gens, done: set<nat>, key: Key, i: nat)
    ensures L.EndGens(L.EndGens(gens, done), Owned(L.EndGens(gens, done), key, Some(i)))
            == L.EndGens(gens, done + Owned(gens, key, Some(i)))
  {
  }

  lemma AdvancesTrans(u: Table, ipv6: bool, a: Gens, b: Gens, c: Gens)
    requires FamilyOnly(a, b, ipv6) && Advances(u, ipv6, b, c)
    ensures Advances(u, ipv6, a, c)
  {
  }

  /** Ending a batch of exact instances under one guard is the protocol's end of those that are live. */
  lemma {:induction false} EndBatchAgrees(t: Table, ipv6: bool, gens: Gens, batch: seq<(Key, nat)>, now: nat)
    requires TableOk(t, ipv6) && Represents(t, ipv6, gens) && now > 0
    requires forall k :: k in batch ==> IsIpv6(k.0) == ipv6
    ensures var u := DoEndInstances(t, batch, now).0;
            TableOk(u, ipv6) && Advances(u, ipv6, gens, L.EndGens(gens, Named(gens, batch)))
  {
    if batch == [] {
      Unchanged(t, ipv6, gens, EndAt(now));
      EndedIsChanged(gens, {}, now);
    } else {
      var rest := batch[..|batch| - 1];
      var (key, i) := batch[|batch| - 1];
      assert batch == rest + [(key, i)];
      EndBatchAgrees(t, ipv6, gens, rest, now);
      var u := DoEndInstances(t, rest, now).0;
      EndBatchNext(u, ipv6, gens, rest, key, i, now);
    }
  }

  lemma EndBatchNext(u: Table, ipv6: bool, gens: Gens, rest: seq<(Key, nat)>, key: Key, i: nat, now: nat)
    requires TableOk(u, ipv6) && Advances(u, ipv6, gens, L.EndGens(gens, Named(gens, rest)))
    requires now > 0 && IsIpv6(key) == ipv6
    ensures var v := DoEditExact(u, key, Some(i), EndAt(now)).0;
            TableOk(v, ipv6) && Advances(v, ipv6, gens, L.EndGens(gens, Named(gens, rest + [(key, i)])))
  {
    var middle := L.EndGens(gens, Named(gens, rest));
    var who := Owned(middle, key, Some(i));
    assert Represents(u, ipv6, middle) && FamilyOnly(gens, middle, ipv6);
    StepOk(u, OpEditExact(key, Some(i), EndAt(now)), ipv6);
    assert Step(u, OpEditExact(key, Some(i), EndAt(now))) == DoEditExact(u, key, Some(i), EndAt(now)).0;
    hide TableOk, Represents, Advances, Changed, Named, Owned, DoEditExact, FamilyOnly, L.EndGens;
    ExactAdvances(u, ipv6, middle, key, Some(i), EndAt(now));
    EndedIsChanged(middle, who, now);
    EndAgain(gens, Named(gens, rest), key, i);
    NamedNext(gens, rest, key, i);
    AdvancesTrans(DoEditExact(u, key, Some(i), EndAt(now)).0, ipv6, gens, middle, L.EndGens(middle, who));
  }

  // ---- registering, cleaning and clearing -----------------------------------------------------------

  lemma InsertStored(t: Table, c: Conn)
    ensures forall d :: Stored(t[Small(c.key) := Insert(GroupOf(t, Small(c.key)), c)], d) <==> d == c || Stored(t, d)
  {
    var l := GroupOf(t, Small(c.key));
    var u := t[Small(c.key) := Insert(l, c)];
    InsertMembers(l, c);
    forall d ensures Stored(u, d) <==> d == c || Stored(t, d) {
      assert d in Insert(l, c) <==> d in l || d == c;
    }
  }

  lemma InsertAdvances(t: Table, ipv6: bool, gens: Gens, c: Conn)
    requires Represents(t, ipv6, gens) && c.instance !in gens && IsIpv6(c.key) == ipv6
    ensures Advances(t[Small(c.key) := Insert(GroupOf(t, Small(c.key)), c)], ipv6, gens,
                     gens[c.instance := Abstract(c)])
  {
    InsertStored(t, c);
    var u := t[Small(c.key) := Insert(GroupOf(t, Small(c.key)), c)];
    forall i | i in gens && IsIpv6(gens[i].key) == ipv6 ensures exists d :: Stored(u, d) && d.instance == i {
      var d :| Stored(t, d) && d.instance == i;
      assert Stored(u, d);
    }
    assert Stored(u, c);
  }

  /** A candidate connection as registration makes it, with a number that was drawn and is in use nowhere. */
  predicate Candidate(c: Conn, gens: Gens) {
    c.instance !in gens && c.verdict == Undecided && !Ended(c)
  }

  /** Edits that are of no concern to the protocol. */
  predicate Neutral(e: Edit) {
    e.Attribute? || e.MarkNative? || e.Refresh? || e.Untouched?
  }

  lemma NeutralChange(gens: Gens, who: set<nat>, e: Edit)
    requires Neutral(e)
    ensures Changed(gens, who, e) == gens
  {
  }

  /** Registering a connection is the protocol's registration, whatever attribution is merged into an existing entry. */
  lemma RegisterAgrees(t: Table, ipv6: bool, s: L.State, c: Conn, merge: Edit)
    requires TableOk(t, ipv6) && Represents(t, ipv6, s.gens) && Neutral(merge)
    requires Candidate(c, s.gens) && ConnOk(c, Small(c.key), ipv6)
    ensures Advances(DoInsert(t, c, merge).0, ipv6, s.gens, L.DoRegister(s, c.key, c.instance).gens)
  {
    hide TableOk, Represents, Advances;
    OwnedAgrees(t, ipv6, s.gens, c.key, None);
    assert Owned(s.gens, c.key, None) == L.LiveTwin(s.gens, c.key);
    var existing := First(GroupOf(t, Small(c.key)), Live(c.key, None));
    if existing.Some? {
      EditAdvances(t, ipv6, s.gens, c.key, Live(c.key, None), merge);
      NeutralChange(s.gens, {existing.value.instance}, merge);
    } else {
      InsertAdvances(t, ipv6, s.gens, c);
    }
  }

  lemma LiveTwinAgrees(t: Table, ipv6: bool, gens: Gens, key: Key)
    requires TableOk(t, ipv6) && Represents(t, ipv6, gens) && IsIpv6(key) == ipv6
    ensures forall n: nat :: n in L.LiveTwin(gens, key) <==> LiveIn(t, key, n)
  {
    forall n: nat ensures n in L.LiveTwin(gens, key) <==> LiveIn(t, key, n) {
      var l := GroupOf(t, Small(key));
      LiveMember(l, key, n);
      if n in L.LiveTwin(gens, key) {
        var c :| Stored(t, c) && c.instance == n;
        assert c in l;
      }
      if c :| c in l && c.key == key && c.instance == n && !Ended(c) {
        StoredIn(t, ipv6, Small(key), c);
      }
    }
  }

  /** The number registration answers with is the one live generation of the tuple. */
  lemma RegisterAnswersTwin(t: Table, ipv6: bool, s: L.State, c: Conn, merge: Edit)
    requires TableOk(t, ipv6) && Represents(t, ipv6, s.gens) && Neutral(merge)
    requires Candidate(c, s.gens) && ConnOk(c, Small(c.key), ipv6)
    ensures var r := DoInsert(t, c, merge).1;
            && L.LiveTwin(L.DoRegister(s, c.key, c.instance).gens, c.key) == {NumberOf(r)}
            && (r.Err? <==> L.LiveTwin(s.gens, c.key) != {})
  {
    ProperIsAllowed(t, ipv6, s, OpInsert(c, merge));
    StepOk(t, OpInsert(c, merge), ipv6);
    RegisterAgrees(t, ipv6, s, c, merge);
    RegisterChooses(t, ipv6, c, merge);
    var u := DoInsert(t, c, merge).0;
    assert u == Step(t, OpInsert(c, merge));
    hide TableOk, Represents, DoInsert, Step, L.DoRegister, LiveIn;
    LiveTwinAgrees(t, ipv6, s.gens, c.key);
    LiveTwinAgrees(u, ipv6, L.DoRegister(s, c.key, c.instance).gens, c.key);
  }

  /** The numbers of the ended entries whose grace is over. */
  function Outdated(t: Table, now: nat): set<nat> {
    set g, i | g in t && 0 <= i < |t[g]| && Expired(t[g][i], Cutoff(now)) :: t[g][i].instance
  }

  lemma OutdatedIs(t: Table, ipv6: bool, now: nat, c: Conn)
    requires TableOk(t, ipv6) && Stored(t, c)
    ensures c.instance in Outdated(t, now) <==> Expired(c, Cutoff(now))
  {
    var g := Small(c.key);
    if Expired(c, Cutoff(now)) {
      var i :| 0 <= i < |t[g]| && t[g][i] == c;
      assert t[g][i].instance in Outdated(t, now);
    }
    if c.instance in Outdated(t, now) {
      var h, i :| h in t && 0 <= i < |t[h]| && Expired(t[h][i], Cutoff(now)) && t[h][i].instance == c.instance;
      StoredIn(t, ipv6, h, t[h][i]);
      if t[h][i] != c { OneNumberEach(t, ipv6, t[h][i], c); }
    }
  }

  lemma CleanStored(t: Table, now: nat, c: Conn)
    ensures Stored(ConnectionTable.DoClean(t, Cutoff(now)), c) <==> Stored(t, c) && !Expired(c, Cutoff(now))
  {
    if Small(c.key) in t { RetainedIsFilter(t[Small(c.key)], Cutoff(now)); }
  }

  /** Numbers of outdated entries are those of ended generations of this family, as the protocol's cleaning asks. */
  lemma OutdatedEnded(t: Table, ipv6: bool, gens: Gens, now: nat, i: nat)
    requires TableOk(t, ipv6) && Represents(t, ipv6, gens) && i in Outdated(t, now)
    ensures i in gens && gens[i].ended && IsIpv6(gens[i].key) == ipv6
  {
    var h, k :| h in t && 0 <= k < |t[h]| && Expired(t[h][k], Cutoff(now)) && t[h][k].instance == i;
    StoredIn(t, ipv6, h, t[h][k]);
  }

  /** Removing history after its grace is the protocol's cleaning of exactly those generations. */
  lemma CleanAgrees(t: Table, ipv6: bool, s: L.State, now: nat)
    requires TableOk(t, ipv6) && Represents(t, ipv6, s.gens)
    ensures Advances(ConnectionTable.DoClean(t, Cutoff(now)), ipv6, s.gens, L.DoClean(s, Outdated(t, now)).gens)
    ensures forall i :: i in Outdated(t, now) ==> i in s.gens && s.gens[i].ended && IsIpv6(s.gens[i].key) == ipv6
  {
    var u, after := ConnectionTable.DoClean(t, Cutoff(now)), L.DoClean(s, Outdated(t, now)).gens;
    forall i | i in Outdated(t, now) ensures i in s.gens && s.gens[i].ended && IsIpv6(s.gens[i].key) == ipv6 {
      OutdatedEnded(t, ipv6, s.gens, now, i);
    }
    hide TableOk, Outdated, ConnectionTable.DoClean;
    forall c | Stored(u, c) ensures c.instance in after && after[c.instance] == Abstract(c) {
      CleanStored(t, now, c);
      OutdatedIs(t, ipv6, now, c);
    }
    forall i | i in after && IsIpv6(after[i].key) == ipv6 ensures exists c :: Stored(u, c) && c.instance == i {
      var c :| Stored(t, c) && c.instance == i;
      OutdatedIs(t, ipv6, now, c);
      CleanStored(t, now, c);
    }
  }

  /** Clearing a map is the protocol's clearing of its family. */
  lemma ClearAgrees(ipv6: bool, s: L.State)
    ensures Advances(map[], ipv6, s.gens, L.DoClear(s, ipv6).gens)
  {
  }

  // ---- both maps, over whole runs ---------------------------------------------------------------------

  datatype Maps = Maps(v4: Table, v6: Table)

  function TableOf(m: Maps, ipv6: bool): Table {
    if ipv6 then m.v6 else m.v4
  }

  function Perform(m: Maps, ipv6: bool, op: Op): Maps {
    if ipv6 then m.(v6 := Step(m.v6, op)) else m.(v4 := Step(m.v4, op))
  }

  ghost predicate Implements(m: Maps, gens: Gens) {
    && TableOk(m.v4, false) && Represents(m.v4, false, gens)
    && TableOk(m.v6, true) && Represents(m.v6, true, gens)
  }

  /** The operation as the driver issues it: tuples go to the map of their family, the clock is running. */
  predicate Proper(op: Op, ipv6: bool, s: L.State) {
    match op
    case OpInsert(c, merge) => Candidate(c, s.gens) && ConnOk(c, Small(c.key), ipv6) && Neutral(merge)
    case OpRead(_, _, _, _) => true
    case OpEditExact(key, owner, e) =>
      IsIpv6(key) == ipv6 && (e.EndAt? ==> e.now > 0) && (e.SetVerdict? ==> owner.None?)
    case OpEditInstance(key, _, scan, e) =>
      IsIpv6(key) == ipv6 && scan == IsRedirectPort(key.remotePort, s.ignoreSpecialPorts) && !e.EndAt?
    case OpEndGroup(_, _, now) => now > 0
    case OpEndInactive(now) => now > 0
    case OpClean(_) => true
    case OpClear => true
  }

  /** What the protocol does to the generations when a map operation is performed. */
  function Meaning(s: L.State, t: Table, ipv6: bool, op: Op): Gens {
    match op
    case OpInsert(c, _) => L.DoRegister(s, c.key, c.instance).gens
    case OpRead(_, _, _, _) => s.gens
    case OpEditExact(key, owner, e) =>
      if e.EndAt? then L.EndGens(s.gens, Owned(s.gens, key, owner))
      else if e.SetVerdict? then L.DoUpdate(s, key, e.verdict).gens
      else s.gens
    case OpEditInstance(key, i, _, e) =>
      if e.SetVerdict? && L.LiveMatching(s, key, i) then L.SetVerdict(s, i, e.verdict).gens else s.gens
    case OpEndGroup(g, sel, _) => L.DoEndSome(s, ipv6, Chosen(t, {g}, sel)).gens
    case OpEndInactive(now) => L.DoEndSome(s, ipv6, Chosen(t, t.Keys, Inactive(Cutoff(now)))).gens
    case OpClean(now) => L.DoClean(s, Outdated(t, now)).gens
    case OpClear => L.DoClear(s, ipv6).gens
  }

  lemma ReadAgrees(t: Table, ipv6: bool, gens: Gens, key: Key, scan: bool, fallback: bool, now: nat)
    requires TableOk(t, ipv6) && Represents(t, ipv6, gens)
    ensures Advances(DoRead(t, key, scan, fallback, now).0, ipv6, gens, gens)
  {
    hide TableOk, Represents, Advances;
    var q := Winner(GroupOf(t, Small(key)), key, scan, fallback);
    if q.Some? {
      EditAdvances(t, ipv6, gens, key, q.value, Refresh(now));
      NeutralChange(gens, {First(GroupOf(t, Small(key)), q.value).value.instance}, Refresh(now));
    } else {
      Unchanged(t, ipv6, gens, Untouched);
    }
  }

  lemma ExactAgrees(t: Table, ipv6: bool, s: L.State, key: Key, owner: Option<nat>, e: Edit)
    requires TableOk(t, ipv6) && Represents(t, ipv6, s.gens) && Proper(OpEditExact(key, owner, e), ipv6, s)
    ensures Advances(DoEditExact(t, key, owner, e).0, ipv6, s.gens, Meaning(s, t, ipv6, OpEditExact(key, owner, e)))
  {
    hide TableOk, Represents, Advances, DoEditExact;
    ExactAdvances(t, ipv6, s.gens, key, owner, e);
    if e.EndAt? {
      EndedIsChanged(s.gens, Owned(s.gens, key, owner), e.now);
    } else if e.SetVerdict? {
      assert Owned(s.gens, key, None) == L.LiveTwin(s.gens, key);
      assert Changed(s.gens, Owned(s.gens, key, None), e) == L.DoUpdate(s, key, e.verdict).gens;
    } else {
      NeutralChange(s.gens, Owned(s.gens, key, owner), e);
    }
  }

  lemma InstanceAgrees(t: Table, ipv6: bool, s: L.State, key: Key, i: nat, e: Edit)
    requires TableOk(t, ipv6) && Represents(t, ipv6, s.gens) && IsIpv6(key) == ipv6 && !e.EndAt?
    ensures var scan := IsRedirectPort(key.remotePort, s.ignoreSpecialPorts);
            Advances(DoEditInstance(t, key, i, scan, e).0, ipv6, s.gens,
                     Meaning(s, t, ipv6, OpEditInstance(key, i, scan, e)))
  {
    hide TableOk, Represents, Advances, DoEditInstance;
    InstanceAdvances(t, ipv6, s, key, i, e);
    Unchanged(t, ipv6, s.gens, e);
    if !e.SetVerdict? {
      NeutralChange(s.gens, if L.LiveMatching(s, key, i) then {i} else {}, e);
    } else if L.LiveMatching(s, key, i) {
      assert Changed(s.gens, {i}, e) == L.SetVerdict(s, i, e.verdict).gens;
    }
  }

  lemma EndGroupAgrees(t: Table, ipv6: bool, s: L.State, g: Group, sel: Selection, now: nat)
    requires TableOk(t, ipv6) && Represents(t, ipv6, s.gens) && now > 0
    ensures Advances(DoEndGroup(t, g, sel, now).0, ipv6, s.gens, L.DoEndSome(s, ipv6, Chosen(t, {g}, sel)).gens)
  {
    var u := DoEndGroup(t, g, sel, now).0;
    assert EndsIn(t, u, {g}, sel, now);
    EndSomeAgrees(t, u, ipv6, s, {g}, sel, now);
  }

  lemma EndInactiveAgrees(t: Table, ipv6: bool, s: L.State, now: nat)
    requires TableOk(t, ipv6) && Represents(t, ipv6, s.gens) && now > 0
    ensures Advances(DoEndInactive(t, Cutoff(now), now), ipv6, s.gens,
                     L.DoEndSome(s, ipv6, Chosen(t, t.Keys, Inactive(Cutoff(now)))).gens)
  {
    var u := DoEndInactive(t, Cutoff(now), now);
    assert EndsIn(t, u, t.Keys, Inactive(Cutoff(now)), now);
    EndSomeAgrees(t, u, ipv6, s, t.Keys, Inactive(Cutoff(now)), now);
  }

  /** Every operation on a map is the protocol's effect on the generations of its family. */
  lemma OpAgrees(t: Table, ipv6: bool, s: L.State, op: Op)
    requires TableOk(t, ipv6) && Represents(t, ipv6, s.gens) && Proper(op, ipv6, s)
    ensures Advances(Step(t, op), ipv6, s.gens, Meaning(s, t, ipv6, op))
  {
    hide TableOk, Represents, Advances;
    match op
    case OpInsert(c, merge) => RegisterAgrees(t, ipv6, s, c, merge);
    case OpRead(key, scan, fallback, now) => ReadAgrees(t, ipv6, s.gens, key, scan, fallback, now);
    case OpEditExact(key, owner, e) => ExactAgrees(t, ipv6, s, key, owner, e);
    case OpEditInstance(key, i, scan, e) => InstanceAgrees(t, ipv6, s, key, i, e);
    case OpEndGroup(g, sel, now) => EndGroupAgrees(t, ipv6, s, g, sel, now);
    case OpEndInactive(now) => EndInactiveAgrees(t, ipv6, s, now);
    case OpClean(now) => CleanAgrees(t, ipv6, s, now);
    case OpClear => ClearAgrees(ipv6, s);
  }

  /** A number the protocol does not know is in no map. */
  lemma ProperIsAllowed(t: Table, ipv6: bool, s: L.State, op: Op)
    requires TableOk(t, ipv6) && Represents(t, ipv6, s.gens) && Proper(op, ipv6, s)
    ensures Allowed(t, op, ipv6)
  {
    if op.OpInsert? {
      forall g | g in t ensures !HasId(t[g], op.conn.instance) {
        forall i | 0 <= i < |t[g]| ensures t[g][i].instance != op.conn.instance {
          StoredIn(t, ipv6, g, t[g][i]);
        }
      }
    }
  }

  /** One operation on either map: both maps go on implementing the generations the protocol now has. */
  lemma OpImplements(m: Maps, s: L.State, ipv6: bool, op: Op)
    requires Implements(m, s.gens) && Proper(op, ipv6, s)
    ensures Implements(Perform(m, ipv6, op), Meaning(s, TableOf(m, ipv6), ipv6, op))
  {
    hide TableOk, Represents, Proper, Meaning, Step, FamilyOnly;
    var t := TableOf(m, ipv6);
    ProperIsAllowed(t, ipv6, s, op);
    StepOk(t, op, ipv6);
    OpAgrees(t, ipv6, s, op);
    OtherFamilyKept(TableOf(m, !ipv6), ipv6, s.gens, Meaning(s, t, ipv6, op));
  }

  datatype MapOp = MapOp(ipv6: bool, op: Op)

  function After(m: Maps, s: L.State, o: MapOp): L.State {
    s.(gens := Meaning(s, TableOf(m, o.ipv6), o.ipv6, o.op))
  }

  ghost predicate ProperRun(m: Maps, s: L.State, ops: seq<MapOp>)
    decreases |ops|
  {
    ops == [] || (Proper(ops[0].op, ops[0].ipv6, s)
                  && ProperRun(Perform(m, ops[0].ipv6, ops[0].op), After(m, s, ops[0]), ops[1..]))
  }

  function PerformAll(m: Maps, ops: seq<MapOp>): Maps
    decreases |ops|
  {
    if ops == [] then m else PerformAll(Perform(m, ops[0].ipv6, ops[0].op), ops[1..])
  }

  function AfterAll(m: Maps, s: L.State, ops: seq<MapOp>): L.State
    decreases |ops|
  {
    if ops == [] then s else AfterAll(Perform(m, ops[0].ipv6, ops[0].op), After(m, s, ops[0]), ops[1..])
  }

  lemma {:induction false} ContinuesToImplement(m: Maps, s: L.State, ops: seq<MapOp>)
    requires Implements(m, s.gens) && ProperRun(m, s, ops)
    ensures Implements(PerformAll(m, ops), AfterAll(m, s, ops).gens)
    decreases |ops|
  {
    hide Implements, Proper, Perform, Meaning;
    if ops != [] {
      OpImplements(m, s, ops[0].ipv6, ops[0].op);
      ContinuesToImplement(Perform(m, ops[0].ipv6, ops[0].op), After(m, s, ops[0]), ops[1..]);
    }
  }

  /**
   Over every run of operations on the two maps, from empty ones on, they implement the
   generations of the protocol.
   */
  lemma RunImplements(ports: bool, ops: seq<MapOp>)
    requires ProperRun(Maps(map[], map[]), L.Init(ports), ops)
    ensures Implements(PerformAll(Maps(map[], map[]), ops), AfterAll(Maps(map[], map[]), L.Init(ports), ops).gens)
  {
    ContinuesToImplement(Maps(map[], map[]), L.Init(ports), ops);
  }
}
