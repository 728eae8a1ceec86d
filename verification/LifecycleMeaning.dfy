/**
 What the steps of the lifecycle protocol decide, said in terms of tuples, packets and
 verdicts, and what becomes of a closing endpoint and of a published request in every run.
 */
module LifecycleMeaning {
  import opened Net
  import opened RequestSpec
  import opened Lifecycle
  import opened LifecycleProof
  import opened LifecycleTheorems
  import Runs = RequestRuns

  // ---- tuples --------------------------------------------------------------------------------

  predicate WithinHost(key: Key) {
    IsLocalhost(key.localAddress) || key.localAddress == key.remoteAddress
  }

  /** The other end of a connection within this host sees the four fields exchanged. */
  predicate IsPeer(own: Key, other: Key) {
    && other.protocol == own.protocol
    && other.localAddress == own.remoteAddress && other.localPort == own.remotePort
    && other.remoteAddress == own.localAddress && other.remotePort == own.localPort
  }

  /** The tuple under which a generation with this verdict gets its replies. */
  predicate IsAliasOf(g: Generation, key: Key) {
    && key.protocol == g.key.protocol && key.localPort == g.key.localPort
    && key.localAddress.V6? == g.key.localAddress.V6?
    && match g.verdict
       case RedirectNameServer =>
         key.remotePort == 53 && key.remoteAddress.V6? == g.key.remoteAddress.V6? && IsLocalhost(key.remoteAddress)
       case RedirectTunnel => key.remotePort == 717 && key.remoteAddress == key.localAddress
       case RedirectSplitTunnel => key.remotePort == 719 && key.remoteAddress == key.localAddress
       case _ => false
  }

  /** A live generation that a packet with this tuple reaches by its number. */
  predicate Reaches(s: State, key: Key, i: nat) {
    && i in s.gens && !s.gens[i].ended
    && (key == s.gens[i].key || (!s.ignoreSpecialPorts && IsAliasOf(s.gens[i], key)))
  }

  lemma ReachesIsLiveMatching(s: State, key: Key, i: nat)
    ensures Reaches(s, key, i) <==> LiveMatching(s, key, i)
  {
    LocalhostIsLoopback(key.remoteAddress);
  }

  // ---- closing a TCP endpoint ------------------------------------------------------------------

  /** A request of this endpoint, or of its peer within this host. */
  predicate HoldsUp(endpoint: Endpoint, key: Key, instance: Option<nat>) {
    instance == Some(endpoint.instance) || (WithinHost(endpoint.key) && IsPeer(endpoint.key, key))
  }

  /** A queued or active request that an endpoint has to wait for. */
  ghost predicate InSight(c: Cache, endpoint: Endpoint, id: nat) {
    || (exists e :: e in c.queue && e.id == id && HoldsUp(endpoint, e.value.key, e.value.instance))
    || (id in c.active && HoldsUp(endpoint, c.active[id].key, c.active[id].instance))
  }

  lemma HoldsUpIsMatch(endpoint: Endpoint, key: Key, instance: Option<nat>)
    ensures HoldsUp(endpoint, key, instance) <==> RequestMatches(endpoint.key, endpoint.instance, key, instance)
  {
    LocalhostIsLoopback(endpoint.key.localAddress);
  }

  lemma SightIsScan(c: Cache, endpoint: Endpoint)
    ensures forall id :: id in EndpointRequests(c, endpoint.key, endpoint.instance) <==> InSight(c, endpoint, id)
  {
    hide HoldsUp, RequestMatches;
    forall key, instance
      ensures HoldsUp(endpoint, key, instance) <==> RequestMatches(endpoint.key, endpoint.instance, key, instance)
    {
      HoldsUpIsMatch(endpoint, key, instance);
    }
  }

  /**
   Closing a live endpoint. With a request in sight the closure is deferred, waits for exactly
   those requests, and the generation lives on; if the classification cannot be pended, or a
   closure is pended already, that one stays and the end is scheduled; with nothing in sight
   the generation ends and owes its END.
   */
  lemma CloseMeaning(s: State, endpoint: Endpoint, pended: bool)
    requires Reachable(s) && LiveExact(s.gens, endpoint) && Enabled(s, Call(CloseEndpoint(endpoint, pended)))
    ensures var t := Step(s, Call(CloseEndpoint(endpoint, pended)));
            var g := endpoint.instance;
            if exists id :: InSight(s.cache, endpoint, id) then
              && t.gens == s.gens && t.events == s.events && t.work.owedEnds == s.work.owedEnds && t.cache == s.cache
              && if pended && g !in s.closures then
                   && g in t.closures && t.closures[g].endpoint == endpoint && t.work == s.work
                   && (forall id :: id in t.closures[g].waits <==> InSight(s.cache, endpoint, id))
                 else t.closures == s.closures && endpoint in t.work.endNow
            else
              !Live(t.gens, g) && g in t.work.owedEnds && t.closures == s.closures
  {
    hide Reachable, InSight, EndpointRequests;
    SightIsScan(s.cache, endpoint);
    var ids := EndpointRequests(s.cache, endpoint.key, endpoint.instance);
    if id :| InSight(s.cache, endpoint, id) {
      assert id in ids;
    } else {
      assert ids == {};
    }
  }

  lemma SightOfOne(c: Cache, e: Entry, endpoint: Endpoint)
    requires c.queue == [e] && c.active == map[] && e.value.instance == Some(endpoint.instance)
    ensures forall id :: InSight(c, endpoint, id) <==> id == e.id
  {
    assert e in c.queue;
  }

  /** Closures are deferred: a live connection with a queued request, closed and waiting for it. */
  lemma DeferredReachable() returns (s: State)
    ensures Reachable(s) && Live(s.gens, 1) && 1 in s.closures
    ensures s.closures[1].endpoint == Endpoint(TUPLE, 1) && s.closures[1].waits == {1}
  {
    hide Reachable, InSight;
    var t := ArrivalQueued();
    var endpoint := Endpoint(TUPLE, 1);
    ArrivalId();
    hide Push;
    SightOfOne(t.cache, Entry(1, Pending(ALIAS, Ale, Some(1))), endpoint);
    assert InSight(t.cache, endpoint, 1);
    ReachableStep(t, Call(CloseEndpoint(endpoint, true)));
    CloseMeaning(t, endpoint, true);
    hide Step;
    s := Step(t, Call(CloseEndpoint(endpoint, true)));
  }

  // ---- a closing endpoint is never forgotten --------------------------------------------------------

  /** The closure of this endpoint is over, pended, or scheduled. */
  predicate Closing(s: State, endpoint: Endpoint) {
    !LiveExact(s.gens, endpoint) || endpoint.instance in s.closures || endpoint in s.work.endNow
  }

  /** Generations that are not live under this tuple do not come back. */
  lemma StaysOver(s: State, t: State, endpoint: Endpoint)
    requires Issued(s.numbers, endpoint.instance) && Moved(s, t)
    requires !LiveExact(s.gens, endpoint)
    ensures !LiveExact(t.gens, endpoint)
  {
  }

  ghost predicate Moved(s: State, t: State) {
    GensMove(s.gens, s.numbers, t.gens, t.numbers)
  }

  lemma EndSetMoves(s: State, ended: set<nat>)
    ensures Moved(s, EndSet(s, ended))
  {
  }

  lemma SameGensMoved(s: State, t: State)
    requires t.gens == s.gens && t.numbers == s.numbers
    ensures Moved(s, t)
  {
  }

  lemma RegisterMoves(s: State, key: Key, instance: nat)
    requires instance in s.numbers.drawn
    ensures Moved(s, DoRegister(s, key, instance))
  {
  }

  lemma TableMoves(s: State, c: Call)
    requires c.Draw? || c.ClearCache? || c.CleanEnded? || c.UpdateTuple?
    ensures Moved(s, CallStep(s, c))
  {
  }

  lemma CloseMoves(s: State, endpoint: Endpoint, pended: bool)
    ensures Moved(s, DoClose(s, endpoint, pended))
  {
    EndSetMoves(s, {endpoint.instance});
  }

  lemma ApplyMoves(s: State, id: nat)
    requires id in s.applying
    ensures Moved(s, DoApply(s, id))
  {
    ApplyGens(s, id);
  }

  lemma OtherCallMoves(s: State, c: Call)
    requires c.Publish? || c.Verdicted? || c.DrainRequests? || c.DrainClosures?
    ensures Moved(s, CallStep(s, c))
  {
    SameGensMoved(s, CallStep(s, c));
  }

  lemma CallGens(s: State, c: Call)
    requires CallEnabled(s, c)
    ensures Moved(s, CallStep(s, c))
  {
    hide Moved;
    match c
    case Register(key, instance) => RegisterMoves(s, key, instance);
    case CloseEndpoint(endpoint, pended) => CloseMoves(s, endpoint, pended);
    case EndSome(ipv6, instances) => EndSetMoves(s, LiveAmong(s.gens, ipv6, instances));
    case ApplyVerdict(id) => ApplyMoves(s, id);
    case Draw => TableMoves(s, c);
    case ClearCache(_) => TableMoves(s, c);
    case CleanEnded(_, _) => TableMoves(s, c);
    case UpdateTuple(_, _) => TableMoves(s, c);
    case _ => OtherCallMoves(s, c);
  }

  /** Draining hands every closure over, under the tuple its generation still has. */
  lemma DrainHandsOver(s: State, endpoint: Endpoint)
    requires InvEndpoints(s.gens, s.numbers, s.closures, s.work.ready)
    requires InvClosures(s.cache, s.work.finishing, s.closures, s.work.ready)
    requires LiveExact(s.gens, endpoint) && endpoint.instance in s.closures
    ensures endpoint in DoDrainClosures(s).work.endNow
  {
    var g := endpoint.instance;
    assert ClosureOk(s.cache, s.work.finishing, s.work.ready, g, s.closures[g]);
    assert s.closures[g].endpoint == endpoint;
    assert endpoint in Endpoints(s.closures);
  }

  lemma CloseCloses(s: State, other: Endpoint, pended: bool, endpoint: Endpoint)
    requires Closing(s, endpoint)
    ensures Closing(DoClose(s, other, pended), endpoint)
  {
  }

  lemma EndSomeCloses(s: State, ipv6: bool, instances: set<nat>, endpoint: Endpoint)
    requires Closing(s, endpoint)
    ensures Closing(DoEndSome(s, ipv6, instances), endpoint)
  {
  }

  lemma OtherCallCloses(s: State, c: Call, endpoint: Endpoint)
    requires Closing(s, endpoint) && LiveExact(s.gens, endpoint)
    requires !c.DrainClosures? && !c.CloseEndpoint? && !c.EndSome?
    ensures Closing(CallStep(s, c), endpoint)
  {
    assert CallStep(s, c).closures == s.closures && CallStep(s, c).work.endNow == s.work.endNow;
  }

  lemma CallCloses(s: State, c: Call, endpoint: Endpoint)
    requires Reachable(s) && LiveExact(s.gens, endpoint) && Closing(s, endpoint)
    ensures Closing(CallStep(s, c), endpoint)
  {
    match c
    case DrainClosures =>
      ReachableInv(s);
      if endpoint.instance in s.closures {
        DrainHandsOver(s, endpoint);
      }
    case CloseEndpoint(other, pended) => CloseCloses(s, other, pended, endpoint);
    case EndSome(ipv6, instances) => EndSomeCloses(s, ipv6, instances, endpoint);
    case _ =>
      hide Reachable, CallStep;
      OtherCallCloses(s, c, endpoint);
  }

  /** A completer that takes a closure ends its generation. */
  lemma ReadyCloses(s: State, job: Endpoint, endpoint: Endpoint)
    requires InvEndpoints(s.gens, s.numbers, s.closures, s.work.ready) && job in s.work.ready
    requires Closing(s, endpoint)
    ensures Closing(DoReady(s, job), endpoint)
  {
    assert KeyOk(s.gens, s.numbers, job);
  }

  lemma EndNowCloses(s: State, job: Endpoint, endpoint: Endpoint)
    requires Closing(s, endpoint)
    ensures Closing(DoEndNow(s, job), endpoint)
  {
  }

  lemma OtherJobCloses(s: State, j: Job, endpoint: Endpoint)
    requires Closing(s, endpoint) && !j.ReadyJob? && !j.EndNowJob?
    ensures Closing(JobStep(s, j), endpoint)
  {
  }

  lemma JobCloses(s: State, j: Job, endpoint: Endpoint)
    requires Reachable(s) && JobEnabled(s, j) && Closing(s, endpoint)
    ensures Closing(JobStep(s, j), endpoint)
  {
    match j
    case ReadyJob(job) =>
      ReachableInv(s);
      ReadyCloses(s, job, endpoint);
    case EndNowJob(job) => EndNowCloses(s, job, endpoint);
    case _ =>
      hide Reachable, JobStep;
      OtherJobCloses(s, j, endpoint);
  }

  lemma JobNumbers(s: State, j: Job)
    ensures JobStep(s, j).numbers == s.numbers
  {
  }

  lemma StepCloses(s: State, l: Label, endpoint: Endpoint)
    requires Reachable(s) && Enabled(s, l) && Issued(s.numbers, endpoint.instance) && Closing(s, endpoint)
    ensures Closing(Step(s, l), endpoint) && Issued(Step(s, l).numbers, endpoint.instance)
  {
    hide Reachable, CallStep, JobStep;
    match l {
      case Call(c) =>
        CallGens(s, c);
        if LiveExact(s.gens, endpoint) {
          CallCloses(s, c, endpoint);
        } else {
          StaysOver(s, CallStep(s, c), endpoint);
        }
      case Run(j) =>
        JobNumbers(s, j);
        JobCloses(s, j, endpoint);
    }
  }

  lemma {:induction false} RunCloses(s: State, run: seq<Label>, endpoint: Endpoint)
    requires Reachable(s) && ValidRun(s, run) && Issued(s.numbers, endpoint.instance) && Closing(s, endpoint)
    ensures Closing(RunAll(s, run), endpoint) && Issued(RunAll(s, run).numbers, endpoint.instance)
    decreases |run|
  {
    hide Reachable, Closing, Step, Enabled;
    if run != [] {
      var t := RunAll(s, run[..|run| - 1]);
      RunCloses(s, run[..|run| - 1], endpoint);
      ReachableRun(s, run[..|run| - 1]);
      StepCloses(t, run[|run| - 1], endpoint);
    }
  }

  /** Once an endpoint closes, its generation lives on only while its closure is pended or its end is scheduled. */
  lemma CloseIsKept(s: State, endpoint: Endpoint, pended: bool, later: seq<Label>)
    requires Reachable(s) && LiveExact(s.gens, endpoint) && Enabled(s, Call(CloseEndpoint(endpoint, pended)))
    requires ValidRun(Step(s, Call(CloseEndpoint(endpoint, pended))), later)
    ensures var t := RunAll(Step(s, Call(CloseEndpoint(endpoint, pended))), later);
            Live(t.gens, endpoint.instance) ==> endpoint.instance in t.closures || endpoint in t.work.endNow
  {
    hide Reachable, InSight;
    var l := Call(CloseEndpoint(endpoint, pended));
    StoredIsIssued(s, endpoint.instance);
    CloseMeaning(s, endpoint, pended);
    ReachableStep(s, l);
    RunKeys(Step(s, l), later, endpoint.instance);
    RunCloses(Step(s, l), later, endpoint);
  }

  // ---- what a verdict does to its packet ---------------------------------------------------------------

  /** The live generation this request is bound to. */
  predicate ReachesOwn(s: State, p: Pending) {
    p.instance.Some? && Reaches(s, p.key, p.instance.value)
  }

  /**
   The packet of an applied verdict is injected, redirected or blocked, each in exactly these
   cases: whatever is not accepted or redirected is blocked, and so is every packet whose
   generation is gone, except a datagram that was sent already.
   */
  lemma VerdictMeaning(s: State, id: nat)
    requires Reachable(s) && Enabled(s, Call(ApplyVerdict(id)))
    ensures var (p, v) := s.applying[id];
            var t := Step(s, Call(ApplyVerdict(id)));
            && id in t.history.outcomes && id !in t.applying && id in t.work.finishing
            && var o := t.history.outcomes[id];
               && (o.Injected? <==> IsAccept(v) && (ReachesOwn(s, p) || p.instance.None? || IsSentDatagram(p)))
               && (o.Redirected? <==> IsRedirect(v) && ReachesOwn(s, p))
               && (o.Redirected? ==> p.instance.value in s.gens && Targets(o.info, s.gens[p.instance.value].key, v))
  {
    hide Reachable, Decide, Targets;
    var (p, v) := s.applying[id];
    if p.instance.Some? {
      ReachesIsLiveMatching(s, p.key, p.instance.value);
    }
    DecideMeaning(s, p, v);
    ApplyGens(s, id);
  }

  // ---- from publication to answer ------------------------------------------------------------------------

  /**
   Publishing queues every packet under the next IDs with its tuple, instance and thread, and
   makes exactly the closures wait for them whose endpoint they belong to.
   */
  lemma EnqueueMeaning(s: State, p: Publication, k: nat)
    requires k < |p.packets| && p.key.localAddress.V6? == p.key.remoteAddress.V6?
    ensures var t := Step(s, Run(EnqueueJob(p)));
            var id := s.cache.nextId + k;
            && Entry(id, Pending(p.key, p.packets[k], p.instance)) in t.cache.queue
            && (p.thread != 0 ==> id in t.cache.threads && t.cache.threads[id] == p.thread)
            && id in t.history.recorded && t.history.recorded[id] == Identity(p.key, p.instance)
            && Announcement(p.key.localAddress.V6?, p.instance, id) in t.work.announcements
            && t.closures.Keys == s.closures.Keys
            && (forall g :: g in s.closures && id !in s.closures[g].waits ==>
                  (id in t.closures[g].waits <==> HoldsUp(s.closures[g].endpoint, p.key, p.instance)))
  {
    hide Push, NewIds, HoldsUp, AddRequests;
    EnqueuedAt(s.cache, p, k);
    forall g | g in s.closures && s.cache.nextId + k !in s.closures[g].waits
      ensures s.cache.nextId + k in AddRequests(s.closures[g], p.key, p.instance, NewIds(s.cache, p)).waits
              <==> HoldsUp(s.closures[g].endpoint, p.key, p.instance)
    {
      JoinsIfHoldsUp(s.closures[g], p, NewIds(s.cache, p), s.cache.nextId + k);
    }
  }

  lemma EnqueuedAt(c: Cache, p: Publication, k: nat)
    requires k < |p.packets| && SameFamily(p.key)
    ensures var d := Push(c, p.key, p.packets, p.instance, p.thread);
            && Entry(c.nextId + k, Pending(p.key, p.packets[k], p.instance)) in d.queue
            && (p.thread != 0 ==> c.nextId + k in d.threads && d.threads[c.nextId + k] == p.thread)
            && c.nextId + k in NewIds(c, p)
  {
    Runs.PushMeaning(c, p.key, p.packets, p.instance, p.thread);
    Runs.NewIds(c.nextId, p.key, p.packets, p.instance);
    var d := Push(c, p.key, p.packets, p.instance, p.thread);
    hide Push, IdSet, NewEntries;
    assert d.queue[|c.queue| + k] in d.queue;
  }

  lemma JoinsIfHoldsUp(c: Closure, p: Publication, ids: set<nat>, id: nat)
    requires id in ids && id !in c.waits
    ensures id in AddRequests(c, p.key, p.instance, ids).waits <==> HoldsUp(c.endpoint, p.key, p.instance)
  {
    HoldsUpIsMatch(c.endpoint, p.key, p.instance);
  }

  /** No step changes what is being applied; a verdict for a request that left the queue finds nothing. */
  lemma StepKeepsAnswer(s: State, l: Label, id: nat)
    requires Reachable(s) && Enabled(s, l) && id in s.applying
    ensures id in Step(s, l).applying ==> Step(s, l).applying[id] == s.applying[id]
  {
    AppliedNotQueued(s, id);
    hide Reachable, Enabled;
    match l
    case Call(c) => CallKeepsAnswer(s, c, id);
    case Run(j) => JobKeepsApplying(s, j);
  }

  lemma AppliedNotQueued(s: State, id: nat)
    requires Reachable(s) && id in s.applying
    ensures Claim(s.cache, id).0.None?
  {
    ReachableInv(s);
    Runs.ClaimValid(s.cache, id);
  }

  lemma CallKeepsAnswer(s: State, c: Call, id: nat)
    requires id in s.applying && Claim(s.cache, id).0.None?
    ensures id in CallStep(s, c).applying ==> CallStep(s, c).applying[id] == s.applying[id]
  {
    hide Claim;
    match c
    case CloseEndpoint(endpoint, pended) => assert DoClose(s, endpoint, pended).applying == s.applying;
    case _ =>
  }

  lemma JobKeepsApplying(s: State, j: Job)
    ensures JobStep(s, j).applying == s.applying
  {
    match j
    case ReadyJob(endpoint) => ReadyKeepsApplying(s, endpoint);
    case _ =>
  }

  lemma ReadyKeepsApplying(s: State, endpoint: Endpoint)
    ensures DoReady(s, endpoint).applying == s.applying
  {
  }

  /** A request that has been answered is never queued again. */
  lemma {:induction false} RunKeepsAnswer(s: State, run: seq<Label>, id: nat)
    requires Reachable(s) && ValidRun(s, run) && id in s.applying
    ensures id in RunAll(s, run).applying || id in RunAll(s, run).history.outcomes
    ensures id in RunAll(s, run).applying ==> RunAll(s, run).applying[id] == s.applying[id]
    decreases |run|
  {
    hide Reachable, Step, Enabled;
    if run != [] {
      var t := RunAll(s, run[..|run| - 1]);
      RunKeepsAnswer(s, run[..|run| - 1], id);
      ReachableRun(s, run[..|run| - 1]);
      ReachableRun(s, run);
      AnsweredStays(t, run[|run| - 1], id);
      if id in t.applying {
        StepKeepsAnswer(t, run[|run| - 1], id);
      }
    }
  }

  /** Being applied or settled, a request does not go back to the queue. */
  lemma AnsweredStays(s: State, l: Label, id: nat)
    requires Reachable(s) && Enabled(s, l) && (id in s.applying || id in s.history.outcomes)
    ensures id in Step(s, l).applying || id in Step(s, l).history.outcomes
    ensures id !in s.applying ==> id !in Step(s, l).applying
  {
    hide Reachable;
    RequestsConserved(s, id);
    ReachableStep(s, l);
    RequestsConserved(Step(s, l), id);
    StepForward(s, l);
    QueueOnlyNew(s, l);
  }

  /** The queue gets no old ID back. */
  ghost predicate OnlyNew(c: Cache, d: Cache) {
    d.nextId >= c.nextId && forall id :: id in IdSet(d.queue) ==> id in IdSet(c.queue) || id >= c.nextId
  }

  lemma ReachableCache(s: State)
    requires Reachable(s)
    ensures Valid(s.cache)
  {
    ReachableInv(s);
  }

  lemma PushOnlyNew(c: Cache, p: Publication)
    requires Valid(c)
    ensures OnlyNew(c, Push(c, p.key, p.packets, p.instance, p.thread))
  {
    PushFacts(c, p);
  }

  lemma LessOnlyNew(c: Cache, id: nat, instances: set<nat>)
    requires Valid(c)
    ensures OnlyNew(c, c) && OnlyNew(c, Claim(c, id).1) && OnlyNew(c, Retire(c, instances)) && OnlyNew(c, Drain(c))
    ensures OnlyNew(c, Finish(c, id))
  {
    Runs.ClaimValid(c, id);
    Runs.RetireValid(c, instances);
  }

  lemma CallCache(s: State, c: Call)
    ensures CallStep(s, c).cache == match c
                                    case Verdicted(id, _) => Claim(s.cache, id).1
                                    case DrainRequests => Drain(s.cache)
                                    case _ => s.cache
  {
    hide Drain;
    match c
    case ApplyVerdict(id) => ApplyCache(s, id);
    case CloseEndpoint(endpoint, pended) => CloseCache(s, endpoint, pended);
    case _ =>
  }

  lemma ApplyCache(s: State, id: nat)
    ensures id in s.applying ==> DoApply(s, id).cache == s.cache
  {
  }

  lemma CloseCache(s: State, endpoint: Endpoint, pended: bool)
    ensures DoClose(s, endpoint, pended).cache == s.cache
  {
  }

  lemma EndJobCache(s: State, endpoint: Endpoint)
    ensures DoReady(s, endpoint).cache == s.cache && DoEndNow(s, endpoint).cache == s.cache
  {
  }

  lemma JobCache(s: State, j: Job)
    ensures JobStep(s, j).cache == match j
                                   case EnqueueJob(p) => Push(s.cache, p.key, p.packets, p.instance, p.thread)
                                   case FinishJob(id) => Finish(s.cache, id)
                                   case RetireJob(instances) => Retire(s.cache, instances - {0})
                                   case _ => s.cache
  {
    hide Push, Finish, Retire;
    match j
    case ReadyJob(endpoint) => EndJobCache(s, endpoint);
    case EndNowJob(endpoint) => EndJobCache(s, endpoint);
    case _ =>
  }

  lemma QueueOnlyNew(s: State, l: Label)
    requires Reachable(s)
    ensures OnlyNew(s.cache, Step(s, l).cache)
  {
    ReachableCache(s);
    hide Reachable, OnlyNew, CallStep, JobStep, Valid;
    match l {
      case Call(c) =>
        CallCache(s, c);
        LessOnlyNew(s.cache, if c.Verdicted? then c.id else 0, {});
      case Run(j) =>
        JobCache(s, j);
        LessOnlyNew(s.cache, if j.FinishJob? then j.id else 0, if j.RetireJob? then j.instances - {0} else {});
        if j.EnqueueJob? { PushOnlyNew(s.cache, j.publication); }
    }
  }

  /**
   The answer that claims a queued request is the one that is applied to the packet that was
   queued, in every continuation and whatever further answers userspace sends for it.
   */
  lemma FirstAnswerCounts(s: State, e: Entry, v: Verdict, later: seq<Label>)
    requires Reachable(s) && e in s.cache.queue && ValidRun(Step(s, Call(Verdicted(e.id, v))), later)
    ensures var t := RunAll(Step(s, Call(Verdicted(e.id, v))), later);
            && (e.id in t.applying ==> t.applying[e.id] == (e.value, v))
            && (e.id in t.applying || e.id in t.history.outcomes)
  {
    var l := Call(Verdicted(e.id, v));
    ClaimedAs(s, e, v);
    hide Reachable, Step;
    ReachableStep(s, l);
    RunKeepsAnswer(Step(s, l), later, e.id);
  }

  lemma ClaimedAs(s: State, e: Entry, v: Verdict)
    requires Reachable(s) && e in s.cache.queue
    ensures var t := Step(s, Call(Verdicted(e.id, v))); e.id in t.applying && t.applying[e.id] == (e.value, v)
  {
    ReachableCache(s);
    hide Reachable;
    var at :| 0 <= at < |s.cache.queue| && s.cache.queue[at] == e;
    Runs.ClaimMeaning(s.cache, e.id, at);
    hide Claim, Valid;
  }

  // ---- packets that are settled without a verdict --------------------------------------------------------

  lemma StaysBlocked(s: State, l: Label, id: nat, later: seq<Label>)
    requires Reachable(s) && Enabled(s, l) && ValidRun(Step(s, l), later)
    requires id in Step(s, l).history.outcomes && Step(s, l).history.outcomes[id] == Blocked
    ensures var t := RunAll(Step(s, l), later); id in t.history.outcomes && t.history.outcomes[id] == Blocked
  {
    hide Reachable;
    ReachableStep(s, l);
    OutcomeIsFinal(Step(s, l), id, later);
  }

  /** Once an ended instance is retired, its queued packets are blocked for good, except datagrams that were sent. */
  lemma RetireBlocks(s: State, instances: set<nat>, e: Entry, later: seq<Label>)
    requires Reachable(s) && Enabled(s, Run(RetireJob(instances)))
             && ValidRun(Step(s, Run(RetireJob(instances))), later)
    requires e in s.cache.queue && e.value.instance.Some? && e.value.instance.value in instances - {0}
    requires !IsSentDatagram(e.value)
    ensures var t := RunAll(Step(s, Run(RetireJob(instances))), later);
            e.id in t.history.outcomes && t.history.outcomes[e.id] == Blocked
  {
    ReachableCache(s);
    Runs.RetireMeaning(s.cache, instances - {0}, e);
    hide Reachable, Retire, Removed, Valid;
    InIdSet(Removed(s.cache.queue, instances - {0}));
    StaysBlocked(s, Run(RetireJob(instances)), e.id, later);
  }

  /** Shutdown blocks every queued packet for good and sets out to block the generation each is bound to. */
  lemma DrainBlocks(s: State, e: Entry, later: seq<Label>)
    requires Reachable(s) && e in s.cache.queue && ValidRun(Step(s, Call(DrainRequests)), later)
    ensures Step(s, Call(DrainRequests)).cache.queue == []
    ensures e.value.instance.Some? ==>
              (e.value.key, e.value.instance.value) in Step(s, Call(DrainRequests)).work.blocking
    ensures var t := RunAll(Step(s, Call(DrainRequests)), later);
            e.id in t.history.outcomes && t.history.outcomes[e.id] == Blocked
  {
    hide Reachable;
    InIdSet(s.cache.queue);
    StaysBlocked(s, Call(DrainRequests), e.id, later);
  }

  /** The generation a drained packet was bound to is blocked permanently, if the packet still reaches it. */
  lemma BlockDrainedMeaning(s: State, key: Key, bound: nat)
    ensures var t := Step(s, Run(BlockDrainedJob(key, bound)));
            && t.gens.Keys == s.gens.Keys
            && (forall i :: i in s.gens ==>
                  t.gens[i] == if i == bound && Reaches(s, key, i) then s.gens[i].(verdict := PermanentBlock)
                      else s.gens[i])
  {
    ReachesIsLiveMatching(s, key, bound);
  }

  // ---- every published request is announced once -------------------------------------------------------

  function AnnouncementOf(recorded: map<nat, Identity>, id: nat): Announcement
    requires id in recorded
  {
    Announcement(IsIpv6(recorded[id].key), recorded[id].instance, id)
  }

  /** A CONN names a recorded request with the instance it was queued under, and comes once. */
  ghost predicate ConnsOk(recorded: map<nat, Identity>, events: seq<Event>) {
    && (forall e :: e in events && e.Conn? ==> e.id in recorded && e.instance == recorded[e.id].instance)
    && (forall i, j :: 0 <= i < j < |events| && events[i].Conn? && events[j].Conn? ==> events[i].id != events[j].id)
  }

  /** Outstanding announcements are those of recorded requests, once each, with no CONN yet. */
  ghost predicate AnnouncementsOk(
    recorded: map<nat, Identity>, announcements: multiset<Announcement>, events: seq<Event>)
  {
    forall a :: a in announcements ==>
                  && a.id in recorded && a == AnnouncementOf(recorded, a.id) && announcements[a] == 1
                  && Conn(recorded[a.id].instance, a.id) !in events
  }

  ghost predicate AllAnnounced(recorded: map<nat, Identity>, announcements: multiset<Announcement>,
                               events: seq<Event>) {
    forall id :: id in recorded ==>
                   AnnouncementOf(recorded, id) in announcements || Conn(recorded[id].instance, id) in events
  }

  ghost predicate Announced(recorded: map<nat, Identity>, announcements: multiset<Announcement>, events: seq<Event>) {
    && ConnsOk(recorded, events) && AnnouncementsOk(recorded, announcements, events)
    && AllAnnounced(recorded, announcements, events)
  }

  lemma AnnounceKeeps(recorded: map<nat, Identity>, announcements: multiset<Announcement>, events: seq<Event>,
                      a: Announcement)
    requires Announced(recorded, announcements, events) && a in announcements
    ensures Announced(recorded, announcements - multiset{a}, events + [Conn(a.instance, a.id)])
  {
    var after := events + [Conn(a.instance, a.id)];
    assert after[|events|] == Conn(a.instance, a.id);
    assert forall e :: e in after <==> e in events || e == Conn(a.instance, a.id);
    forall i | 0 <= i < |events| && events[i].Conn? ensures events[i].id != a.id {
      assert events[i] in events;
    }
  }

  lemma EmitKeeps(recorded: map<nat, Identity>, announcements: multiset<Announcement>, events: seq<Event>, ended: nat)
    requires Announced(recorded, announcements, events)
    ensures Announced(recorded, announcements, events + [End(ended)])
  {
    var after := events + [End(ended)];
    assert forall e :: e in after <==> e in events || e == End(ended);
  }

  lemma EnqueueKeeps(recorded: map<nat, Identity>, announcements: multiset<Announcement>, events: seq<Event>,
                     p: Publication, ids: set<nat>)
    requires Announced(recorded, announcements, events) && forall id :: id in ids ==> id !in recorded
    ensures Announced(recorded + map id | id in ids :: Identity(p.key, p.instance),
                      announcements + multiset(Announcements(p, ids)), events)
  {
    var more := recorded + map id | id in ids :: Identity(p.key, p.instance);
    var added := Announcements(p, ids);
    forall a | a in added ensures a.id in ids && a == AnnouncementOf(more, a.id) && a !in announcements {
    }
    forall id | id in ids ensures AnnouncementOf(more, id) in added {
      assert AnnouncementOf(more, id) == Announcement(IsIpv6(p.key), p.instance, id);
    }
  }

  /** Neither the record of requests nor what is or will be announced changes. */
  ghost predicate SameConns(s: State, t: State) {
    t.history.recorded == s.history.recorded && t.work.announcements == s.work.announcements && t.events == s.events
  }

  lemma EndConns(s: State, endpoint: Endpoint, pended: bool, ipv6: bool, instances: set<nat>)
    ensures SameConns(s, DoClose(s, endpoint, pended)) && SameConns(s, DoEndSome(s, ipv6, instances))
  {
  }

  lemma CallConns(s: State, c: Call)
    ensures SameConns(s, CallStep(s, c))
  {
    match c
    case CloseEndpoint(endpoint, pended) => EndConns(s, endpoint, pended, false, {});
    case EndSome(ipv6, instances) => EndConns(s, Endpoint(TUPLE, 0), false, ipv6, instances);
    case ApplyVerdict(id) => ApplyConns(s, id);
    case _ =>
  }

  lemma ApplyConns(s: State, id: nat)
    ensures id in s.applying ==> SameConns(s, DoApply(s, id))
  {
  }

  lemma ReadyConns(s: State, endpoint: Endpoint)
    ensures SameConns(s, DoReady(s, endpoint))
  {
  }

  lemma EndNowConns(s: State, endpoint: Endpoint)
    ensures SameConns(s, DoEndNow(s, endpoint))
  {
  }

  lemma BlockConns(s: State, j: Job)
    requires j.FinishJob? || j.RetireJob? || j.BlockDrainedJob?
    ensures SameConns(s, JobStep(s, j))
  {
  }

  lemma JobConns(s: State, j: Job)
    requires !j.EnqueueJob? && !j.AnnounceJob? && !j.EmitEndJob?
    ensures SameConns(s, JobStep(s, j))
  {
    hide SameConns;
    match j
    case ReadyJob(endpoint) => ReadyConns(s, endpoint);
    case EndNowJob(endpoint) => EndNowConns(s, endpoint);
    case _ => BlockConns(s, j);
  }

  lemma EnqueueIsNew(s: State, p: Publication)
    requires Reachable(s)
    ensures forall id :: id in NewIds(s.cache, p) ==> id !in s.history.recorded
  {
    ReachableInv(s);
    PushFacts(s.cache, p);
  }

  lemma StepAnnounces(s: State, l: Label)
    requires Reachable(s) && Enabled(s, l) && Announced(s.history.recorded, s.work.announcements, s.events)
    ensures var t := Step(s, l); Announced(t.history.recorded, t.work.announcements, t.events)
  {
    hide Reachable, Announced;
    if l.Call? {
      CallConns(s, l.call);
    } else {
      match l.job
      case EnqueueJob(p) =>
        EnqueueIsNew(s, p);
        EnqueueKeeps(s.history.recorded, s.work.announcements, s.events, p, NewIds(s.cache, p));
      case AnnounceJob(a) => AnnounceKeeps(s.history.recorded, s.work.announcements, s.events, a);
      case EmitEndJob(ended) => EmitKeeps(s.history.recorded, s.work.announcements, s.events, ended);
      case _ =>
        hide JobStep;
        JobConns(s, l.job);
    }
  }

  lemma {:induction false} RunAnnounces(s: State, run: seq<Label>)
    requires Reachable(s) && ValidRun(s, run) && Announced(s.history.recorded, s.work.announcements, s.events)
    ensures var t := RunAll(s, run); Announced(t.history.recorded, t.work.announcements, t.events)
    decreases |run|
  {
    hide Reachable, Announced, Step, Enabled;
    if run != [] {
      RunAnnounces(s, run[..|run| - 1]);
      ReachableRun(s, run[..|run| - 1]);
      StepAnnounces(RunAll(s, run[..|run| - 1]), run[|run| - 1]);
    }
  }

  /**
   In every reachable state each issued request either has exactly one announcement still to be
   made or exactly one CONN event, under the instance it was queued with.
   */
  lemma AnnouncedOnce(s: State, id: nat)
    requires Reachable(s) && 1 <= id < s.cache.nextId
    ensures id in s.history.recorded
    ensures var a := AnnouncementOf(s.history.recorded, id);
            var e := Conn(s.history.recorded[id].instance, id);
            && s.work.announcements[a] + multiset(s.events)[e] == 1
            && (forall b :: b in s.work.announcements && b.id == id ==> b == a)
            && (forall x :: x in s.events && x.Conn? && x.id == id ==> x == e)
  {
    IssuedRecorded(s, id);
    ReachableAnnounced(s);
    hide Reachable;
    OnceInEvents(s.history.recorded, s.events, id);
  }

  lemma IssuedRecorded(s: State, id: nat)
    requires Reachable(s) && 1 <= id < s.cache.nextId
    ensures id in s.history.recorded
  {
    ReachableInv(s);
  }

  lemma ReachableAnnounced(s: State)
    requires Reachable(s)
    ensures Announced(s.history.recorded, s.work.announcements, s.events)
  {
    var ports, run :| ValidRun(Init(ports), run) && s == RunAll(Init(ports), run);
    assert Reachable(Init(ports)) by { assert ValidRun(Init(ports), []) && RunAll(Init(ports), []) == Init(ports); }
    RunAnnounces(Init(ports), run);
  }

  lemma {:induction false} CountAtMost(events: seq<Event>, e: Event)
    requires e.Conn?
    requires forall i, j :: 0 <= i < j < |events| && events[i].Conn? && events[j].Conn? ==> events[i].id != events[j].id
    ensures multiset(events)[e] <= 1
  {
    if events != [] {
      var n := |events| - 1;
      assert events == events[..n] + [events[n]];
      CountAtMost(events[..n], e);
      if events[n] == e {
        assert e !in events[..n];
      }
    }
  }

  lemma OnceInEvents(recorded: map<nat, Identity>, events: seq<Event>, id: nat)
    requires ConnsOk(recorded, events) && id in recorded
    ensures multiset(events)[Conn(recorded[id].instance, id)] == if Conn(recorded[id].instance, id) in events then 1
            else 0
  {
    CountAtMost(events, Conn(recorded[id].instance, id));
  }
}
