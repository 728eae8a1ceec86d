/**
 What every reachable state of the lifecycle protocol satisfies.

 Each part of the invariant names exactly the fields it speaks about, so a step owes
 nothing to the parts whose fields it leaves alone.
 */
module LifecycleProof {
  import opened Net
  import opened RequestSpec
  import opened Lifecycle
  import Runs = RequestRuns

  type Gens = map<nat, Generation>

  // ---- the invariant ---------------------------------------------------------------

  /** Once registered and no longer live, an instance never comes back. */
  predicate Dead(gens: Gens, n: Numbers, instance: nat) {
    Issued(n, instance) && !Live(gens, instance)
  }

  /**
   Every issued request is queued, being applied, or has its one outcome; only the last kind
   is left to be finished.
   */
  ghost predicate InvRequests(
    c: Cache, applying: map<nat, (Pending, Verdict)>, finishing: multiset<nat>, outcomes: map<nat, Outcome>)
  {
    && Valid(c)
    && (forall id :: id in applying ==>
          id in c.active && c.active[id] == Identity(applying[id].0.key, applying[id].0.instance))
    && (forall id :: id in c.active ==> id in applying || id in finishing)
    && (forall id :: id in finishing ==> id in outcomes)
    && (forall id :: id in outcomes <==> 1 <= id < c.nextId && id !in IdSet(c.queue) && id !in applying)
  }

  predicate RecordOk(recorded: Identity, p: Pending) {
    p.key == recorded.key && (p.instance == recorded.instance || (p.instance.None? && Survives(p.packet, p.key)))
  }

  /** A request keeps the tuple and instance it was queued with, or is an outbound UDP clone that lost the latter. */
  ghost predicate InvRecorded(
    c: Cache, applying: map<nat, (Pending, Verdict)>, recorded: map<nat, Identity>)
  {
    && (forall id :: id in recorded <==> 1 <= id < c.nextId)
    && (forall e :: e in c.queue ==> e.id in recorded && RecordOk(recorded[e.id], e.value))
    && (forall id :: id in applying ==> id in recorded && RecordOk(recorded[id], applying[id].0))
  }

  /** A request still to be finished, so that a closure may wait for it. */
  predicate Outstanding(c: Cache, finishing: multiset<nat>, id: nat) {
    id in IdSet(c.queue) || id in c.active || id in finishing
  }

  predicate KeyOk(gens: Gens, n: Numbers, endpoint: Endpoint) {
    && Issued(n, endpoint.instance)
    && (endpoint.instance in gens ==> gens[endpoint.instance].key == endpoint.key)
  }

  /**
   A closure waits for every request in its sight, only for requests still to be finished,
   and when for none a completer is on its way.
   */
  ghost predicate ClosureOk(c: Cache, finishing: multiset<nat>, ready: multiset<Endpoint>, g: nat, k: Closure) {
    && k.endpoint.instance == g
    && EndpointRequests(c, k.endpoint.key, g) <= k.waits
    && (forall id :: id in k.waits ==> Outstanding(c, finishing, id))
    && (k.waits == {} ==> k.endpoint in ready)
  }

  ghost predicate InvClosures(c: Cache, finishing: multiset<nat>, closures: map<nat, Closure>,
                              ready: multiset<Endpoint>) {
    forall g :: g in closures ==> ClosureOk(c, finishing, ready, g, closures[g])
  }

  ghost predicate InvEndpoints(gens: Gens, n: Numbers, closures: map<nat, Closure>, ready: multiset<Endpoint>) {
    && (forall g :: g in closures ==> KeyOk(gens, n, closures[g].endpoint))
    && (forall e :: e in ready ==> KeyOk(gens, n, e))
  }

  predicate Vouched(gens: Gens, instance: Option<nat>, ipv6: bool) {
    instance.Some? ==> Live(gens, instance.value) && IsIpv6(gens[instance.value].key) == ipv6
  }

  /** Drawn numbers are in use nowhere. */
  ghost predicate NumbersOk(gens: Gens, n: Numbers) {
    && n.next >= 1
    && (forall i :: i in n.drawn ==> 1 <= i < n.next)
    && (forall i :: i in gens ==> Issued(n, i))
  }

  /** While a publisher holds its guard, its generation is live. */
  ghost predicate InvGens(gens: Gens, n: Numbers, enqueues: multiset<Publication>,
                          announcements: multiset<Announcement>) {
    && NumbersOk(gens, n)
    && (forall p :: p in enqueues ==> Vouched(gens, p.instance, IsIpv6(p.key)))
    && (forall a :: a in announcements ==> Vouched(gens, a.instance, a.ipv6))
  }

  /** No CONN of a generation follows its END, and no generation has two ENDs. */
  ghost predicate EventsOk(events: seq<Event>) {
    forall i, j :: 0 <= i < j < |events| && events[i].End? ==>
                     events[j] != events[i] && !(events[j].Conn? && events[j].instance == Some(events[i].ended))
  }

  ghost predicate InvEvents(gens: Gens, n: Numbers, events: seq<Event>, owedEnds: multiset<nat>) {
    && EventsOk(events)
    && (forall e :: e in events && e.End? ==> Dead(gens, n, e.ended) && e.ended !in owedEnds)
    && (forall g :: g in owedEnds ==> Dead(gens, n, g) && owedEnds[g] == 1)
  }

  predicate Unbound(c: Cache, g: nat) {
    && (forall e :: e in c.queue ==> e.value.instance != Some(g))
    && (forall id :: id in c.active ==> c.active[id].instance != Some(g))
  }

  ghost predicate InvCompleted(gens: Gens, n: Numbers, c: Cache, completed: set<nat>) {
    forall g :: g in completed ==> Dead(gens, n, g) && Unbound(c, g)
  }

  /** A request that lost its instance lost it because that instance is dead. */
  predicate DetachedDead(gens: Gens, n: Numbers, recorded: Identity, p: Pending) {
    p.instance.None? && recorded.instance.Some? ==> Dead(gens, n, recorded.instance.value)
  }

  /** Only dead instances are retired. */
  ghost predicate InvRetired(
    gens: Gens, n: Numbers, c: Cache, applying: map<nat, (Pending, Verdict)>, recorded: map<nat, Identity>,
    retiring: multiset<set<nat>>)
  {
    && (forall r, i :: r in retiring && i in r ==> Dead(gens, n, i))
    && (forall e :: e in c.queue && e.id in recorded ==> DetachedDead(gens, n, recorded[e.id], e.value))
    && (forall id :: id in applying && id in recorded ==> DetachedDead(gens, n, recorded[id], applying[id].0))
  }

  ghost predicate Inv(s: State) {
    && InvRequests(s.cache, s.applying, s.work.finishing, s.history.outcomes)
    && InvRecorded(s.cache, s.applying, s.history.recorded)
    && InvClosures(s.cache, s.work.finishing, s.closures, s.work.ready)
    && InvEndpoints(s.gens, s.numbers, s.closures, s.work.ready)
    && InvGens(s.gens, s.numbers, s.work.enqueues, s.work.announcements)
    && InvEvents(s.gens, s.numbers, s.events, s.work.owedEnds)
    && InvCompleted(s.gens, s.numbers, s.cache, s.history.completed)
    && InvRetired(s.gens, s.numbers, s.cache, s.applying, s.history.recorded, s.work.retiring)
  }

  // ---- generations -------------------------------------------------------------------

  /** Generations are only added with new numbers, keep their tuple, and never come back to life. */
  ghost predicate GensMove(g: Gens, n: Numbers, h: Gens, m: Numbers) {
    && (forall i :: Issued(n, i) ==> Issued(m, i))
    && (forall i :: i in h && Issued(n, i) ==> i in g && h[i].key == g[i].key && (g[i].ended ==> h[i].ended))
  }

  lemma MoveEndpoints(g: Gens, n: Numbers, h: Gens, m: Numbers, closures: map<nat, Closure>, ready: multiset<Endpoint>)
    requires InvEndpoints(g, n, closures, ready) && GensMove(g, n, h, m)
    ensures InvEndpoints(h, m, closures, ready)
  {
  }

  lemma MoveCompleted(g: Gens, n: Numbers, h: Gens, m: Numbers, c: Cache, completed: set<nat>)
    requires InvCompleted(g, n, c, completed) && GensMove(g, n, h, m)
    ensures InvCompleted(h, m, c, completed)
  {
  }

  lemma MoveEvents(g: Gens, n: Numbers, h: Gens, m: Numbers, events: seq<Event>, owed: multiset<nat>)
    requires InvEvents(g, n, events, owed) && GensMove(g, n, h, m)
    ensures InvEvents(h, m, events, owed)
  {
  }

  lemma MoveRetired(g: Gens, n: Numbers, h: Gens, m: Numbers, c: Cache, applying: map<nat, (Pending, Verdict)>,
                    recorded: map<nat, Identity>, retiring: multiset<set<nat>>)
    requires InvRetired(g, n, c, applying, recorded, retiring) && GensMove(g, n, h, m)
    ensures InvRetired(h, m, c, applying, recorded, retiring)
  {
    forall i | Dead(g, n, i) ensures Dead(h, m, i) {
    }
  }

  /** With no publisher of a family, nothing vouches for the life of its generations. */
  lemma UnguardedGens(g: Gens, n: Numbers, h: Gens, m: Numbers, w: Work, ipv6: bool)
    requires InvGens(g, n, w.enqueues, w.announcements) && !Reading(w, ipv6)
    requires NumbersOk(h, m)
    requires forall i :: Live(g, i) && IsIpv6(g[i].key) != ipv6 ==> Live(h, i) && h[i].key == g[i].key
    ensures InvGens(h, m, w.enqueues, w.announcements)
  {
  }

  lemma MoveInv(s: State, t: State, ipv6: bool)
    requires Inv(s) && !Reading(s.work, ipv6)
    requires t == s.(gens := t.gens, numbers := t.numbers)
    requires GensMove(s.gens, s.numbers, t.gens, t.numbers)
    requires NumbersOk(t.gens, t.numbers)
    requires forall i :: Live(s.gens, i) && IsIpv6(s.gens[i].key) != ipv6
                         ==> Live(t.gens, i) && t.gens[i].key == s.gens[i].key
    ensures Inv(t)
  {
    MoveEndpoints(s.gens, s.numbers, t.gens, t.numbers, s.closures, s.work.ready);
    MoveCompleted(s.gens, s.numbers, t.gens, t.numbers, s.cache, s.history.completed);
    MoveEvents(s.gens, s.numbers, t.gens, t.numbers, s.events, s.work.owedEnds);
    UnguardedGens(s.gens, s.numbers, t.gens, t.numbers, s.work, ipv6);
    MoveRetired(s.gens, s.numbers, t.gens, t.numbers, s.cache, s.applying, s.history.recorded, s.work.retiring);
  }

  lemma DrawInv(s: State)
    requires Inv(s)
    ensures Inv(DoDraw(s))
  {
    var t := DoDraw(s);
    assert NumbersOk(t.gens, t.numbers);
    MoveEndpoints(s.gens, s.numbers, t.gens, t.numbers, s.closures, s.work.ready);
    MoveCompleted(s.gens, s.numbers, t.gens, t.numbers, s.cache, s.history.completed);
    MoveEvents(s.gens, s.numbers, t.gens, t.numbers, s.events, s.work.owedEnds);
    MoveRetired(s.gens, s.numbers, t.gens, t.numbers, s.cache, s.applying, s.history.recorded, s.work.retiring);
  }

  lemma RegisterInv(s: State, key: Key, instance: nat)
    requires Inv(s) && !Reading(s.work, IsIpv6(key)) && instance in s.numbers.drawn
    ensures Inv(DoRegister(s, key, instance))
  {
    assert !Issued(s.numbers, instance);
    MoveInv(s, DoRegister(s, key, instance), IsIpv6(key));
  }

  lemma ClearInv(s: State, ipv6: bool)
    requires Inv(s) && !Reading(s.work, ipv6)
    ensures Inv(DoClear(s, ipv6))
  {
    MoveInv(s, DoClear(s, ipv6), ipv6);
  }

  lemma CleanInv(s: State, ipv6: bool, instances: set<nat>)
    requires Inv(s) && !Reading(s.work, ipv6)
    ensures Inv(DoClean(s, instances))
  {
    MoveInv(s, DoClean(s, instances), ipv6);
  }

  /** Only verdicts change. */
  ghost predicate SameLives(g: Gens, h: Gens) {
    h.Keys == g.Keys && forall i :: i in g ==> h[i].key == g[i].key && h[i].ended == g[i].ended
  }

  lemma SameLivesInv(s: State, h: Gens, ipv6: bool)
    requires Inv(s) && !Reading(s.work, ipv6) && SameLives(s.gens, h)
    ensures Inv(s.(gens := h))
  {
    MoveInv(s, s.(gens := h), ipv6);
  }

  lemma UpdateInv(s: State, key: Key, verdict: Verdict)
    requires Inv(s) && !Reading(s.work, IsIpv6(key))
    ensures Inv(DoUpdate(s, key, verdict))
  {
    SameLivesInv(s, DoUpdate(s, key, verdict).gens, IsIpv6(key));
  }

  lemma SetVerdictInv(s: State, instance: nat, verdict: Verdict, ipv6: bool)
    requires Inv(s) && Live(s.gens, instance) && !Reading(s.work, ipv6)
    ensures Inv(SetVerdict(s, instance, verdict))
  {
    SameLivesInv(s, SetVerdict(s, instance, verdict).gens, ipv6);
  }

  // ---- ending, and events ----------------------------------------------------------------

  /** A live generation has no END behind it and none on the way, so ending it owes exactly one. */
  lemma EndEvents(g: Gens, n: Numbers, events: seq<Event>, owed: multiset<nat>, ended: set<nat>)
    requires InvEvents(g, n, events, owed)
    requires forall i :: i in ended ==> Live(g, i) && Issued(n, i)
    ensures InvEvents(EndGens(g, ended), n, events, owed + multiset(ended))
  {
    MoveEvents(g, n, EndGens(g, ended), n, events, owed);
  }

  lemma EndSetInv(s: State, ended: set<nat>, ipv6: bool)
    requires Inv(s) && !Reading(s.work, ipv6)
    requires forall i :: i in ended ==> Live(s.gens, i) && IsIpv6(s.gens[i].key) == ipv6
    ensures Inv(EndSet(s, ended))
  {
    MoveInv(s, s.(gens := EndGens(s.gens, ended)), ipv6);
    assert forall i :: i in ended ==> Dead(EndGens(s.gens, ended), s.numbers, i);
    EndEvents(s.gens, s.numbers, s.events, s.work.owedEnds, ended);
  }

  lemma AnnounceEvents(g: Gens, n: Numbers, events: seq<Event>, owed: multiset<nat>, a: Announcement)
    requires InvEvents(g, n, events, owed) && Vouched(g, a.instance, a.ipv6)
    ensures InvEvents(g, n, events + [Conn(a.instance, a.id)], owed)
  {
    if a.instance.Some? {
      assert End(a.instance.value) !in events;
    }
  }

  lemma AnnounceInv(s: State, a: Announcement)
    requires Inv(s) && a in s.work.announcements
    ensures Inv(DoAnnounce(s, a))
  {
    AnnounceEvents(s.gens, s.numbers, s.events, s.work.owedEnds, a);
  }

  lemma EmitEvents(g: Gens, n: Numbers, events: seq<Event>, owed: multiset<nat>, ended: nat)
    requires InvEvents(g, n, events, owed) && ended in owed
    ensures InvEvents(g, n, events + [End(ended)], owed - multiset{ended})
  {
    assert End(ended) !in events;
  }

  lemma EmitEndInv(s: State, ended: nat)
    requires Inv(s) && ended in s.work.owedEnds
    ensures Inv(DoEmitEnd(s, ended))
  {
    EmitEvents(s.gens, s.numbers, s.events, s.work.owedEnds, ended);
  }

  lemma EndNowInv(s: State, endpoint: Endpoint)
    requires Inv(s) && !Reading(s.work, IsIpv6(endpoint.key))
    ensures Inv(DoEndNow(s, endpoint))
  {
    var t := s.(work := s.work.(endNow := s.work.endNow - multiset{endpoint}));
    assert Inv(t);
    if LiveExact(s.gens, endpoint) {
      EndSetInv(t, {endpoint.instance}, IsIpv6(endpoint.key));
    }
  }

  lemma BlockDrainedInv(s: State, key: Key, bound: nat)
    requires Inv(s) && !Reading(s.work, IsIpv6(key))
    ensures Inv(DoBlockDrained(s, key, bound))
  {
    var t := s.(work := s.work.(blocking := s.work.blocking - multiset{(key, bound)}));
    assert Inv(t);
    if LiveMatching(s, key, bound) {
      SetVerdictInv(t, bound, PermanentBlock, IsIpv6(key));
    }
  }

  lemma PublishInv(s: State, p: Publication)
    requires Inv(s)
    ensures Inv(DoPublish(s, p))
  {
  }

  // ---- claiming and applying a verdict -------------------------------------------------

  lemma WithoutOne(q: seq<Entry>, at: nat)
    requires Ordered(q) && at < |q|
    ensures forall e :: e in q[..at] + q[at + 1..] <==> e in q && e.id != q[at].id
  {
    var before, after := q[..at], q[at + 1..];
    assert q == before + [q[at]] + after;
    assert forall i :: 0 <= i < |before| ==> before[i].id < q[at].id;
    assert forall i :: 0 <= i < |after| ==> after[i] == q[at + 1 + i] && after[i].id > q[at].id;
    hide Ordered;
  }

  lemma ClaimQueue(c: Cache, id: nat)
    requires Valid(c) && id in IdSet(c.queue)
    ensures Claim(c, id).0.Some?
    ensures Entry(id, Claim(c, id).0.value) in c.queue
    ensures forall e :: e in Claim(c, id).1.queue <==> e in c.queue && e.id != id
  {
    var at := IndexOf(c.queue, id).value;
    WithoutOne(c.queue, at);
    assert c.queue[at] == Entry(id, c.queue[at].value);
  }

  lemma ClaimRequests(c: Cache, applying: map<nat, (Pending, Verdict)>, f: multiset<nat>, o: map<nat, Outcome>,
                      id: nat, v: Verdict)
    requires InvRequests(c, applying, f, o) && id in IdSet(c.queue)
    ensures Claim(c, id).0.Some?
    ensures InvRequests(Claim(c, id).1, applying[id := (Claim(c, id).0.value, v)], f, o)
  {
    Runs.ClaimValid(c, id);
  }

  lemma ClaimRecorded(c: Cache, applying: map<nat, (Pending, Verdict)>, r: map<nat, Identity>, id: nat, v: Verdict)
    requires Valid(c) && InvRecorded(c, applying, r) && id in IdSet(c.queue)
    ensures Claim(c, id).0.Some?
    ensures InvRecorded(Claim(c, id).1, applying[id := (Claim(c, id).0.value, v)], r)
  {
    ClaimQueue(c, id);
  }

  lemma ClaimCompleted(g: Gens, n: Numbers, c: Cache, completed: set<nat>, id: nat)
    requires Valid(c) && InvCompleted(g, n, c, completed) && id in IdSet(c.queue)
    ensures InvCompleted(g, n, Claim(c, id).1, completed)
  {
    ClaimQueue(c, id);
  }

  lemma ClaimRetired(g: Gens, n: Numbers, c: Cache, applying: map<nat, (Pending, Verdict)>, r: map<nat, Identity>,
                     retiring: multiset<set<nat>>, id: nat, v: Verdict)
    requires Valid(c) && InvRetired(g, n, c, applying, r, retiring) && id in IdSet(c.queue)
    ensures Claim(c, id).0.Some?
    ensures InvRetired(g, n, Claim(c, id).1, applying[id := (Claim(c, id).0.value, v)], r, retiring)
  {
    ClaimQueue(c, id);
  }

  /** Moving a request from the queue to the active set keeps it in the sight of every closure. */
  lemma ClaimClosure(c: Cache, f: multiset<nat>, ready: multiset<Endpoint>, g: nat, k: Closure, id: nat)
    requires Valid(c) && ClosureOk(c, f, ready, g, k) && id in IdSet(c.queue)
    ensures ClosureOk(Claim(c, id).1, f, ready, g, k)
  {
    ClaimQueue(c, id);
    Runs.ClaimValid(c, id);
  }

  lemma VerdictedInv(s: State, id: nat, verdict: Verdict)
    requires Inv(s)
    ensures Inv(DoVerdicted(s, id, verdict))
  {
    Runs.ClaimValid(s.cache, id);
    if id in IdSet(s.cache.queue) {
      ClaimRequests(s.cache, s.applying, s.work.finishing, s.history.outcomes, id, verdict);
      ClaimRecorded(s.cache, s.applying, s.history.recorded, id, verdict);
      ClaimCompleted(s.gens, s.numbers, s.cache, s.history.completed, id);
      ClaimRetired(s.gens, s.numbers, s.cache, s.applying, s.history.recorded, s.work.retiring, id, verdict);
      forall g | g in s.closures
        ensures ClosureOk(Claim(s.cache, id).1, s.work.finishing, s.work.ready, g, s.closures[g])
      {
        ClaimClosure(s.cache, s.work.finishing, s.work.ready, g, s.closures[g], id);
      }
    }
  }

  /** More work left to finish never takes a closure's reason to wait away. */
  lemma MoreFinishing(c: Cache, f: multiset<nat>, more: multiset<nat>, closures: map<nat, Closure>,
                      ready: multiset<Endpoint>)
    requires InvClosures(c, f, closures, ready)
    ensures InvClosures(c, f + more, closures, ready)
  {
  }

  lemma SettleInv(s: State, id: nat, outcome: Outcome)
    requires Inv(s) && id in s.applying
    ensures Inv(Settle(s, id, outcome))
  {
    MoreFinishing(s.cache, s.work.finishing, multiset{id}, s.closures, s.work.ready);
  }

  lemma ApplyInv(s: State, id: nat)
    requires Inv(s) && CallEnabled(s, ApplyVerdict(id))
    ensures Inv(DoApply(s, id))
  {
    var (p, verdict) := s.applying[id];
    var t := Settle(s, id, Decide(s, p, verdict));
    SettleInv(s, id, Decide(s, p, verdict));
    if p.instance.Some? && LiveMatching(s, p.key, p.instance.value) {
      SetVerdictInv(t, p.instance.value, verdict, IsIpv6(p.key));
    }
  }

  // ---- finishing a request and completing a ready closure ------------------------------

  lemma FinishRequests(c: Cache, applying: map<nat, (Pending, Verdict)>, f: multiset<nat>, o: map<nat, Outcome>,
                       id: nat)
    requires InvRequests(c, applying, f, o) && id in f
    ensures InvRequests(Finish(c, id), applying, f - multiset{id}, o)
  {
    assert Valid(Finish(c, id));
  }

  lemma FinishClosure(c: Cache, f: multiset<nat>, ready: multiset<Endpoint>, more: multiset<Endpoint>, g: nat,
                      k: Closure, id: nat)
    requires Valid(c) && ClosureOk(c, f, ready, g, k) && id !in IdSet(c.queue)
    requires k.waits - {id} == {} ==> k.endpoint in more
    ensures ClosureOk(Finish(c, id), f - multiset{id}, ready + more, g, k.(waits := k.waits - {id}))
  {
    assert EndpointRequests(Finish(c, id), k.endpoint.key, g) <= EndpointRequests(c, k.endpoint.key, g) - {id} by {
      forall e | e in c.queue ensures e.id != id {
        assert e.id in IdSet(c.queue);
      }
    }
  }

  lemma FinishEndpoints(gens: Gens, n: Numbers, closures: map<nat, Closure>, ready: multiset<Endpoint>, id: nat)
    requires InvEndpoints(gens, n, closures, ready)
    ensures InvEndpoints(gens, n, Waiting(closures, id), ready + multiset(Ready(Waiting(closures, id))))
  {
  }

  lemma FinishInv(s: State, id: nat)
    requires Inv(s) && id in s.work.finishing
    ensures Inv(DoFinish(s, id))
  {
    FinishRequests(s.cache, s.applying, s.work.finishing, s.history.outcomes, id);
    FinishEndpoints(s.gens, s.numbers, s.closures, s.work.ready, id);
    var t := DoFinish(s, id);
    var more := Ready(Waiting(s.closures, id));
    forall g | g in t.closures ensures ClosureOk(t.cache, t.work.finishing, t.work.ready, g, t.closures[g]) {
      assert Waiting(s.closures, id)[g].waits == {} ==> s.closures[g].endpoint in more;
      FinishClosure(s.cache, s.work.finishing, s.work.ready, multiset(more), g, s.closures[g], id);
    }
  }

  lemma BoundInSight(c: Cache, key: Key, g: nat)
    ensures !Unbound(c, g) ==> EndpointRequests(c, key, g) != {}
  {
    if e :| e in c.queue && e.value.instance == Some(g) {
      assert e.id in EndpointRequests(c, key, g);
    } else if id :| id in c.active && c.active[id].instance == Some(g) {
      assert id in EndpointRequests(c, key, g);
    }
  }

  lemma TakeClosures(c: Cache, f: multiset<nat>, closures: map<nat, Closure>, ready: multiset<Endpoint>,
                     endpoint: Endpoint)
    requires InvClosures(c, f, closures, ready)
    requires endpoint.instance in closures ==> closures[endpoint.instance].waits != {}
    ensures InvClosures(c, f, closures, ready - multiset{endpoint})
  {
  }

  /** Taking a ready closure: nothing its generation owns is queued or being applied. */
  lemma TakenInv(s: State, endpoint: Endpoint, g: nat)
    requires Inv(s) && endpoint.instance == g && g in s.closures && s.closures[g].waits == {}
    requires Dead(s.gens, s.numbers, g)
    ensures Inv(s.(closures := s.closures - {g},
                   work := s.work.(ready := s.work.ready - multiset{endpoint}),
                   history := s.history.(completed := s.history.completed + {g})))
  {
    TakeClosures(s.cache, s.work.finishing, s.closures - {g}, s.work.ready, endpoint);
    assert ClosureOk(s.cache, s.work.finishing, s.work.ready, g, s.closures[g]);
    BoundInSight(s.cache, s.closures[g].endpoint.key, g);
  }

  lemma ReadyInv(s: State, endpoint: Endpoint)
    requires Inv(s) && endpoint in s.work.ready && !Reading(s.work, IsIpv6(endpoint.key))
    ensures Inv(DoReady(s, endpoint))
  {
    var g := endpoint.instance;
    assert KeyOk(s.gens, s.numbers, endpoint);
    if g in s.closures && s.closures[g].waits == {} {
      if LiveExact(s.gens, endpoint) {
        EndSetInv(s, {g}, IsIpv6(endpoint.key));
        TakenInv(EndSet(s, {g}), endpoint, g);
      } else {
        TakenInv(s, endpoint, g);
      }
    } else {
      TakeClosures(s.cache, s.work.finishing, s.closures, s.work.ready, endpoint);
    }
  }

  // ---- retiring and draining -------------------------------------------------------------

  lemma RetiredFrom(q: seq<Entry>, s: set<nat>, e: Entry) returns (d: Entry)
    requires e in Kept(q, s)
    ensures d in q && d.id == e.id && e == AfterEnd(d, s) && !Discarded(d, s)
  {
    HalfIsFilter(q, s, false);
    var rest := Half(q, s, false);
    var i :| 0 <= i < |rest| && e == AfterEnd(rest[i], s);
    d := rest[i];
    assert d in rest;
  }

  /** Requests taken out of the queue as blocked. */
  lemma BlockRequests(c: Cache, d: Cache, applying: map<nat, (Pending, Verdict)>, f: multiset<nat>,
                      o: map<nat, Outcome>, gone: set<nat>)
    requires InvRequests(c, applying, f, o) && Valid(d) && d.active == c.active && d.nextId == c.nextId
    requires gone <= IdSet(c.queue) && IdSet(d.queue) == IdSet(c.queue) - gone
    ensures InvRequests(d, applying, f + multiset(gone), o + map id | id in gone :: Blocked)
  {
    forall id | id in gone ensures 1 <= id < c.nextId && id !in applying {
      assert id in IdSet(c.queue);
    }
  }

  lemma RetireRequests(c: Cache, applying: map<nat, (Pending, Verdict)>, f: multiset<nat>, o: map<nat, Outcome>,
                       s: set<nat>)
    requires InvRequests(c, applying, f, o)
    ensures var gone := IdSet(Removed(c.queue, s));
            InvRequests(Retire(c, s), applying, f + multiset(gone), o + map id | id in gone :: Blocked)
  {
    Runs.RetireValid(c, s);
    PartitionIds(c.queue, s);
    BlockRequests(c, Retire(c, s), applying, f, o, IdSet(Removed(c.queue, s)));
  }

  lemma RetireRecorded(c: Cache, applying: map<nat, (Pending, Verdict)>, r: map<nat, Identity>, s: set<nat>)
    requires InvRecorded(c, applying, r)
    ensures InvRecorded(Retire(c, s), applying, r)
  {
    forall e | e in Kept(c.queue, s) ensures e.id in r && RecordOk(r[e.id], e.value) {
      var d := RetiredFrom(c.queue, s, e);
    }
  }

  lemma RetireCompleted(g: Gens, n: Numbers, c: Cache, completed: set<nat>, s: set<nat>)
    requires InvCompleted(g, n, c, completed)
    ensures InvCompleted(g, n, Retire(c, s), completed)
  {
    forall i, e | i in completed && e in Kept(c.queue, s) ensures e.value.instance != Some(i) {
      var d := RetiredFrom(c.queue, s, e);
      assert Unbound(c, i);
    }
  }

  /** Whatever retiring detaches was bound to an instance that is dead. */
  lemma RetireRetired(g: Gens, n: Numbers, c: Cache, applying: map<nat, (Pending, Verdict)>, r: map<nat, Identity>,
                      retiring: multiset<set<nat>>, s: set<nat>)
    requires InvRecorded(c, applying, r) && InvRetired(g, n, c, applying, r, retiring)
    requires forall i :: i in s ==> Dead(g, n, i)
    ensures InvRetired(g, n, Retire(c, s), applying, r, retiring)
  {
    forall e | e in Kept(c.queue, s) && e.id in r ensures DetachedDead(g, n, r[e.id], e.value) {
      var d := RetiredFrom(c.queue, s, e);
      assert RecordOk(r[d.id], d.value) && DetachedDead(g, n, r[d.id], d.value);
    }
  }

  lemma RetireClosure(c: Cache, f: multiset<nat>, ready: multiset<Endpoint>, g: nat, k: Closure, s: set<nat>)
    requires Valid(c) && ClosureOk(c, f, ready, g, k)
    ensures ClosureOk(Retire(c, s), f + multiset(IdSet(Removed(c.queue, s))), ready, g, k)
  {
    Runs.RetireValid(c, s);
    forall e | e in Kept(c.queue, s) && RequestMatches(k.endpoint.key, g, e.value.key, e.value.instance)
      ensures e.id in EndpointRequests(c, k.endpoint.key, g)
    {
      var d := RetiredFrom(c.queue, s, e);
      assert RequestMatches(k.endpoint.key, g, d.value.key, d.value.instance);
    }
  }

  lemma RetireInv(s: State, instances: set<nat>)
    requires Inv(s) && instances in s.work.retiring
    ensures Inv(DoRetire(s, instances))
  {
    var i := instances - {0};
    RetireRequests(s.cache, s.applying, s.work.finishing, s.history.outcomes, i);
    RetireRecorded(s.cache, s.applying, s.history.recorded, i);
    RetireCompleted(s.gens, s.numbers, s.cache, s.history.completed, i);
    RetireRetired(s.gens, s.numbers, s.cache, s.applying, s.history.recorded, s.work.retiring, i);
    var t := DoRetire(s, instances);
    forall g | g in t.closures ensures ClosureOk(t.cache, t.work.finishing, t.work.ready, g, t.closures[g]) {
      RetireClosure(s.cache, s.work.finishing, s.work.ready, g, s.closures[g], i);
    }
  }

  lemma DrainClosure(c: Cache, f: multiset<nat>, ready: multiset<Endpoint>, g: nat, k: Closure)
    requires ClosureOk(c, f, ready, g, k)
    ensures ClosureOk(Drain(c), f + multiset(IdSet(c.queue)), ready, g, k)
  {
  }

  lemma DrainHistory(g: Gens, n: Numbers, c: Cache, applying: map<nat, (Pending, Verdict)>, r: map<nat, Identity>,
                     completed: set<nat>)
    requires InvRecorded(c, applying, r) && InvCompleted(g, n, c, completed)
    ensures InvRecorded(Drain(c), applying, r) && InvCompleted(g, n, Drain(c), completed)
  {
    forall i | i in completed ensures Unbound(Drain(c), i) {
      assert Unbound(c, i);
    }
  }

  lemma DrainClosuresOk(c: Cache, f: multiset<nat>, closures: map<nat, Closure>, ready: multiset<Endpoint>)
    requires InvClosures(c, f, closures, ready)
    ensures InvClosures(Drain(c), f + multiset(IdSet(c.queue)), closures, ready)
  {
    forall g | g in closures ensures ClosureOk(Drain(c), f + multiset(IdSet(c.queue)), ready, g, closures[g]) {
      DrainClosure(c, f, ready, g, closures[g]);
    }
  }

  lemma DrainRequestsInv(s: State)
    requires Inv(s)
    ensures Inv(DoDrainRequests(s))
  {
    BlockRequests(s.cache, Drain(s.cache), s.applying, s.work.finishing, s.history.outcomes, IdSet(s.cache.queue));
    DrainHistory(s.gens, s.numbers, s.cache, s.applying, s.history.recorded, s.history.completed);
    DrainClosuresOk(s.cache, s.work.finishing, s.closures, s.work.ready);
  }

  lemma DrainClosuresInv(s: State)
    requires Inv(s)
    ensures Inv(DoDrainClosures(s))
  {
  }

  // ---- publishing ----------------------------------------------------------------------

  lemma PushFacts(c: Cache, p: Publication)
    requires Valid(c)
    ensures var d := Push(c, p.key, p.packets, p.instance, p.thread);
            && Valid(d) && d.active == c.active && d.nextId >= c.nextId
            && IdSet(d.queue) == IdSet(c.queue) + NewIds(c, p)
            && (forall id :: id in NewIds(c, p) <==> c.nextId <= id < d.nextId)
            && (forall e :: e in d.queue ==>
                  e in c.queue || (e.id in NewIds(c, p) && e.value.key == p.key && e.value.instance == p.instance))
  {
    if SameFamily(p.key) {
      Runs.PushValid(c, p.key, p.packets, p.instance, p.thread);
      Runs.NewIds(c.nextId, p.key, p.packets, p.instance);
      var added := NewEntries(c.nextId, p.key, p.packets, p.instance);
      forall e | e in added ensures e.id in IdSet(added) && e.value.key == p.key && e.value.instance == p.instance {
      }
    }
  }

  lemma PushRequests(c: Cache, applying: map<nat, (Pending, Verdict)>, f: multiset<nat>, o: map<nat, Outcome>,
                     p: Publication)
    requires InvRequests(c, applying, f, o)
    ensures InvRequests(Push(c, p.key, p.packets, p.instance, p.thread), applying, f, o)
  {
    PushFacts(c, p);
  }

  lemma GrowRecorded(c: Cache, d: Cache, applying: map<nat, (Pending, Verdict)>, r: map<nat, Identity>, ids: set<nat>,
                     identity: Identity)
    requires InvRecorded(c, applying, r) && d.nextId >= c.nextId
    requires forall id :: id in ids <==> c.nextId <= id < d.nextId
    requires forall e :: e in d.queue ==>
             e in c.queue || (e.id in ids && Identity(e.value.key, e.value.instance) == identity)
    requires c.nextId >= 1
    ensures InvRecorded(d, applying, r + map id | id in ids :: identity)
  {
    var more := r + map id | id in ids :: identity;
    forall id | id in r ensures id in more && more[id] == r[id] {
      assert id !in ids;
    }
  }

  lemma PushRecorded(c: Cache, applying: map<nat, (Pending, Verdict)>, r: map<nat, Identity>, p: Publication)
    requires Valid(c) && InvRecorded(c, applying, r)
    ensures InvRecorded(Push(c, p.key, p.packets, p.instance, p.thread), applying,
                        r + map id | id in NewIds(c, p) :: Identity(p.key, p.instance))
  {
    PushFacts(c, p);
    GrowRecorded(c, Push(c, p.key, p.packets, p.instance, p.thread), applying, r, NewIds(c, p),
                 Identity(p.key, p.instance));
  }

  lemma PushRetired(g: Gens, n: Numbers, c: Cache, applying: map<nat, (Pending, Verdict)>, r: map<nat, Identity>,
                    retiring: multiset<set<nat>>, p: Publication)
    requires Valid(c) && InvRecorded(c, applying, r) && InvRetired(g, n, c, applying, r, retiring)
    ensures InvRetired(g, n, Push(c, p.key, p.packets, p.instance, p.thread), applying,
                       r + map id | id in NewIds(c, p) :: Identity(p.key, p.instance), retiring)
  {
    PushFacts(c, p);
  }

  /** A new request bound to a generation finds it live, so no completed closure is contradicted. */
  lemma PushCompleted(g: Gens, n: Numbers, c: Cache, completed: set<nat>, p: Publication)
    requires Valid(c) && InvCompleted(g, n, c, completed) && Vouched(g, p.instance, IsIpv6(p.key))
    ensures InvCompleted(g, n, Push(c, p.key, p.packets, p.instance, p.thread), completed)
  {
    PushFacts(c, p);
    forall i, e | i in completed && e in c.queue ensures e.value.instance != Some(i) {
      assert Unbound(c, i);
    }
  }

  lemma PushClosure(c: Cache, f: multiset<nat>, ready: multiset<Endpoint>, g: nat, k: Closure, p: Publication)
    requires Valid(c) && ClosureOk(c, f, ready, g, k)
    ensures ClosureOk(Push(c, p.key, p.packets, p.instance, p.thread), f, ready, g,
                      AddRequests(k, p.key, p.instance, NewIds(c, p)))
  {
    PushFacts(c, p);
  }

  lemma EnqueueGens(g: Gens, n: Numbers, w: Work, p: Publication, ids: set<nat>)
    requires InvGens(g, n, w.enqueues, w.announcements) && p in w.enqueues
    ensures InvGens(g, n, w.enqueues - multiset{p}, w.announcements + multiset(Announcements(p, ids)))
  {
  }

  lemma EnqueueInv(s: State, p: Publication)
    requires Inv(s) && p in s.work.enqueues
    ensures Inv(DoEnqueue(s, p))
  {
    PushRequests(s.cache, s.applying, s.work.finishing, s.history.outcomes, p);
    PushRecorded(s.cache, s.applying, s.history.recorded, p);
    PushCompleted(s.gens, s.numbers, s.cache, s.history.completed, p);
    PushRetired(s.gens, s.numbers, s.cache, s.applying, s.history.recorded, s.work.retiring, p);
    EnqueueGens(s.gens, s.numbers, s.work, p, NewIds(s.cache, p));
    var t := DoEnqueue(s, p);
    forall g | g in t.closures ensures ClosureOk(t.cache, t.work.finishing, t.work.ready, g, t.closures[g]) {
      PushClosure(s.cache, s.work.finishing, s.work.ready, g, s.closures[g], p);
    }
  }

  // ---- closing an endpoint ---------------------------------------------------------------

  lemma DeferInv(s: State, endpoint: Endpoint)
    requires Inv(s) && LiveExact(s.gens, endpoint)
    requires EndpointRequests(s.cache, endpoint.key, endpoint.instance) != {}
    ensures Inv(s.(closures := s.closures[endpoint.instance :=
              Closure(endpoint, EndpointRequests(s.cache, endpoint.key, endpoint.instance))]))
  {
    var ids := EndpointRequests(s.cache, endpoint.key, endpoint.instance);
    forall e | e in s.cache.queue ensures e.id in IdSet(s.cache.queue) {
    }
    assert ClosureOk(s.cache, s.work.finishing, s.work.ready, endpoint.instance, Closure(endpoint, ids));
  }

  lemma CloseInv(s: State, endpoint: Endpoint, pended: bool)
    requires Inv(s) && !Reading(s.work, IsIpv6(endpoint.key))
    ensures Inv(DoClose(s, endpoint, pended))
  {
    if LiveExact(s.gens, endpoint) {
      if EndpointRequests(s.cache, endpoint.key, endpoint.instance) == {} {
        EndSetInv(s, {endpoint.instance}, IsIpv6(endpoint.key));
      } else {
        DeferInv(s, endpoint);
      }
    }
  }

  // ---- every step --------------------------------------------------------------------------

  lemma CallInv(s: State, c: Call)
    requires Inv(s) && CallEnabled(s, c)
    ensures Inv(CallStep(s, c))
  {
    hide Inv;
    match c
    case Draw => DrawInv(s);
    case Register(key, instance) => RegisterInv(s, key, instance);
    case Publish(p) => PublishInv(s, p);
    case Verdicted(id, verdict) => VerdictedInv(s, id, verdict);
    case ApplyVerdict(id) => ApplyInv(s, id);
    case CloseEndpoint(endpoint, pended) => CloseInv(s, endpoint, pended);
    case EndSome(ipv6, instances) => EndSetInv(s, LiveAmong(s.gens, ipv6, instances), ipv6);
    case ClearCache(ipv6) => ClearInv(s, ipv6);
    case CleanEnded(ipv6, instances) => CleanInv(s, ipv6, instances);
    case UpdateTuple(key, verdict) => UpdateInv(s, key, verdict);
    case DrainRequests => DrainRequestsInv(s);
    case DrainClosures => DrainClosuresInv(s);
  }

  lemma JobInv(s: State, j: Job)
    requires Inv(s) && JobEnabled(s, j)
    ensures Inv(JobStep(s, j))
  {
    hide Inv;
    match j
    case EnqueueJob(p) => EnqueueInv(s, p);
    case AnnounceJob(a) => AnnounceInv(s, a);
    case FinishJob(id) => FinishInv(s, id);
    case ReadyJob(endpoint) => ReadyInv(s, endpoint);
    case RetireJob(instances) => RetireInv(s, instances);
    case EmitEndJob(ended) => EmitEndInv(s, ended);
    case EndNowJob(endpoint) => EndNowInv(s, endpoint);
    case BlockDrainedJob(key, bound) => BlockDrainedInv(s, key, bound);
  }

  lemma StepInv(s: State, l: Label)
    requires Inv(s) && Enabled(s, l)
    ensures Inv(Step(s, l))
  {
    hide Inv;
    match l
    case Call(c) => CallInv(s, c);
    case Run(j) => JobInv(s, j);
  }
}
