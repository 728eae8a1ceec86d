/**
 What the lifecycle protocol guarantees over whole runs.
 */
module LifecycleTheorems {
  import opened Net
  import opened RequestSpec
  import opened Lifecycle
  import opened LifecycleProof

  // ---- runs ------------------------------------------------------------------------

  ghost predicate ValidRun(s: State, run: seq<Label>)
    decreases |run|
  {
    run == [] || (ValidRun(s, run[..|run| - 1]) && Enabled(RunAll(s, run[..|run| - 1]), run[|run| - 1]))
  }

  function RunAll(s: State, run: seq<Label>): State
    decreases |run|
  {
    if run == [] then s else Step(RunAll(s, run[..|run| - 1]), run[|run| - 1])
  }

  ghost predicate Reachable(s: State) {
    exists ports, run :: ValidRun(Init(ports), run) && s == RunAll(Init(ports), run)
  }

  lemma InitInv(ports: bool)
    ensures Inv(Init(ports))
  {
  }

  lemma {:induction false} RunInv(s: State, run: seq<Label>)
    requires Inv(s) && ValidRun(s, run)
    ensures Inv(RunAll(s, run))
    decreases |run|
  {
    if run != [] {
      RunInv(s, run[..|run| - 1]);
      StepInv(RunAll(s, run[..|run| - 1]), run[|run| - 1]);
    }
  }

  lemma ReachableInv(s: State)
    requires Reachable(s)
    ensures Inv(s)
  {
    var ports, run :| ValidRun(Init(ports), run) && s == RunAll(Init(ports), run);
    InitInv(ports);
    RunInv(Init(ports), run);
  }

  lemma ReachableStep(s: State, l: Label)
    requires Reachable(s) && Enabled(s, l)
    ensures Reachable(Step(s, l))
  {
    var ports, run :| ValidRun(Init(ports), run) && s == RunAll(Init(ports), run);
    OneMore(Init(ports), run, l);
  }

  lemma OneMore(s: State, run: seq<Label>, l: Label)
    requires ValidRun(s, run) && Enabled(RunAll(s, run), l)
    ensures ValidRun(s, run + [l]) && RunAll(s, run + [l]) == Step(RunAll(s, run), l)
  {
    assert (run + [l])[..|run|] == run;
  }

  lemma {:induction false} ReachableRun(s: State, run: seq<Label>)
    requires Reachable(s) && ValidRun(s, run)
    ensures Reachable(RunAll(s, run))
    decreases |run|
  {
    if run != [] {
      ReachableRun(s, run[..|run| - 1]);
      ReachableStep(RunAll(s, run[..|run| - 1]), run[|run| - 1]);
    }
  }

  // ---- what no step takes back -------------------------------------------------------

  /** Histories only grow: settled packets keep their outcome, requests the instance they were queued with. */
  ghost predicate HistoryGrows(h: History, k: History) {
    && h.completed <= k.completed
    && (forall id :: id in h.outcomes ==> id in k.outcomes && k.outcomes[id] == h.outcomes[id])
    && (forall id :: id in h.recorded ==> id in k.recorded && k.recorded[id] == h.recorded[id])
  }

  /** The END of this generation is queued for userspace or about to be. */
  predicate EndDue(owed: multiset<nat>, events: seq<Event>, g: nat) {
    g in owed || End(g) in events
  }

  ghost predicate EndsKept(owed: multiset<nat>, events: seq<Event>, owed': multiset<nat>, events': seq<Event>) {
    forall g :: EndDue(owed, events, g) ==> EndDue(owed', events', g)
  }

  /** A generation that stops being live owes its END. */
  ghost predicate EndsOwed(gens: Gens, gens': Gens, owed': multiset<nat>) {
    forall g :: Live(gens, g) ==> Live(gens', g) || g in owed'
  }

  ghost predicate Forward(s: State, t: State) {
    HistoryGrows(s.history, t.history) && EndsKept(s.work.owedEnds, s.events, t.work.owedEnds, t.events)
  }

  lemma CallHistory(s: State, c: Call)
    requires !c.ApplyVerdict? && !c.DrainRequests?
    ensures CallStep(s, c).history == s.history
  {
  }

  lemma JobHistory(s: State, j: Job)
    requires !j.EnqueueJob? && !j.RetireJob? && !j.ReadyJob?
    ensures JobStep(s, j).history == s.history
  {
  }

  lemma BlockGrows(h: History, ids: set<nat>)
    requires forall id :: id in ids ==> id !in h.outcomes
    ensures HistoryGrows(h, h.(outcomes := h.outcomes + map id | id in ids :: Blocked))
  {
  }

  lemma RecordGrows(h: History, ids: set<nat>, identity: Identity)
    requires forall id :: id in ids ==> id !in h.recorded
    ensures HistoryGrows(h, h.(recorded := h.recorded + map id | id in ids :: identity))
  {
  }

  lemma DrainGrows(s: State)
    requires InvRequests(s.cache, s.applying, s.work.finishing, s.history.outcomes)
    ensures HistoryGrows(s.history, DoDrainRequests(s).history)
  {
    BlockGrows(s.history, IdSet(s.cache.queue));
  }

  lemma RetireGrows(s: State, instances: set<nat>)
    requires InvRequests(s.cache, s.applying, s.work.finishing, s.history.outcomes)
    ensures HistoryGrows(s.history, DoRetire(s, instances).history)
  {
    PartitionIds(s.cache.queue, instances - {0});
    BlockGrows(s.history, IdSet(Removed(s.cache.queue, instances - {0})));
  }

  lemma EnqueueGrows(s: State, p: Publication)
    requires Valid(s.cache) && InvRecorded(s.cache, s.applying, s.history.recorded)
    ensures HistoryGrows(s.history, DoEnqueue(s, p).history)
  {
    PushFacts(s.cache, p);
    RecordGrows(s.history, NewIds(s.cache, p), Identity(p.key, p.instance));
  }

  lemma ApplyGrows(s: State, id: nat)
    requires id in s.applying && InvRequests(s.cache, s.applying, s.work.finishing, s.history.outcomes)
    ensures HistoryGrows(s.history, DoApply(s, id).history)
  {
  }

  lemma CallForward(s: State, c: Call)
    requires Inv(s) && CallEnabled(s, c)
    ensures HistoryGrows(s.history, CallStep(s, c).history)
  {
    match c
    case DrainRequests => DrainGrows(s);
    case ApplyVerdict(id) => ApplyGrows(s, id);
    case _ => CallHistory(s, c);
  }

  lemma ReadyGrows(s: State, endpoint: Endpoint)
    ensures HistoryGrows(s.history, DoReady(s, endpoint).history)
  {
  }

  lemma JobForward(s: State, j: Job)
    requires InvRequests(s.cache, s.applying, s.work.finishing, s.history.outcomes)
    requires InvRecorded(s.cache, s.applying, s.history.recorded)
    ensures HistoryGrows(s.history, JobStep(s, j).history)
  {
    match j
    case EnqueueJob(p) => EnqueueGrows(s, p);
    case RetireJob(instances) => RetireGrows(s, instances);
    case ReadyJob(endpoint) => ReadyGrows(s, endpoint);
    case _ => JobHistory(s, j);
  }

  lemma EndSetEnds(s: State, ended: set<nat>)
    ensures s.work.owedEnds <= EndSet(s, ended).work.owedEnds && EndSet(s, ended).events == s.events
  {
  }

  lemma CloseEnds(s: State, endpoint: Endpoint, pended: bool)
    ensures s.work.owedEnds <= DoClose(s, endpoint, pended).work.owedEnds
            && DoClose(s, endpoint, pended).events == s.events
  {
    EndSetEnds(s, {endpoint.instance});
  }

  lemma OtherCallEnds(s: State, c: Call)
    requires !c.CloseEndpoint? && !c.EndSome?
    ensures CallStep(s, c).work.owedEnds == s.work.owedEnds && CallStep(s, c).events == s.events
  {
  }

  lemma CallEnds(s: State, c: Call)
    ensures s.work.owedEnds <= CallStep(s, c).work.owedEnds && CallStep(s, c).events == s.events
  {
    match c
    case CloseEndpoint(endpoint, pended) => CloseEnds(s, endpoint, pended);
    case EndSome(ipv6, instances) => EndSetEnds(s, LiveAmong(s.gens, ipv6, instances));
    case _ =>
      hide CallStep;
      OtherCallEnds(s, c);
  }

  lemma ReadyEnds(s: State, endpoint: Endpoint)
    ensures s.work.owedEnds <= DoReady(s, endpoint).work.owedEnds && DoReady(s, endpoint).events == s.events
  {
  }

  lemma EndNowEnds(s: State, endpoint: Endpoint)
    ensures s.work.owedEnds <= DoEndNow(s, endpoint).work.owedEnds && DoEndNow(s, endpoint).events == s.events
  {
  }

  lemma JobEnds(s: State, j: Job)
    requires !j.EmitEndJob? && !j.AnnounceJob?
    ensures s.work.owedEnds <= JobStep(s, j).work.owedEnds && JobStep(s, j).events == s.events
  {
    match j
    case ReadyJob(endpoint) => ReadyEnds(s, endpoint);
    case EndNowJob(endpoint) => EndNowEnds(s, endpoint);
    case _ =>
  }

  lemma EmitEnds(owed: multiset<nat>, events: seq<Event>, ended: nat)
    ensures EndsKept(owed, events, owed - multiset{ended}, events + [End(ended)])
  {
    assert (events + [End(ended)])[|events|] == End(ended);
  }

  lemma EndsForward(s: State, l: Label)
    ensures EndsKept(s.work.owedEnds, s.events, Step(s, l).work.owedEnds, Step(s, l).events)
  {
    match l {
      case Call(c) => CallEnds(s, c);
      case Run(j) =>
        if j.EmitEndJob? {
          EmitEnds(s.work.owedEnds, s.events, j.ended);
        } else if !j.AnnounceJob? {
          JobEnds(s, j);
        }
    }
  }

  lemma StepForward(s: State, l: Label)
    requires Reachable(s) && Enabled(s, l)
    ensures Forward(s, Step(s, l))
  {
    ReachableInv(s);
    EndsForward(s, l);
    match l
    case Call(c) => CallForward(s, c);
    case Run(j) => JobForward(s, j);
  }

  lemma ForwardTrans(s: State, t: State, u: State)
    requires Forward(s, t) && Forward(t, u)
    ensures Forward(s, u)
  {
  }

  lemma {:induction false} RunForward(s: State, run: seq<Label>)
    requires Reachable(s) && ValidRun(s, run)
    ensures Forward(s, RunAll(s, run))
    decreases |run|
  {
    if run != [] {
      var t := RunAll(s, run[..|run| - 1]);
      RunForward(s, run[..|run| - 1]);
      ReachableRun(s, run[..|run| - 1]);
      StepForward(t, run[|run| - 1]);
      ForwardTrans(s, t, RunAll(s, run));
    }
  }

  lemma EndSetOwes(s: State, ended: set<nat>)
    ensures EndsOwed(s.gens, EndSet(s, ended).gens, EndSet(s, ended).work.owedEnds)
  {
  }

  lemma CloseOwes(s: State, endpoint: Endpoint, pended: bool)
    ensures EndsOwed(s.gens, DoClose(s, endpoint, pended).gens, DoClose(s, endpoint, pended).work.owedEnds)
  {
    EndSetOwes(s, {endpoint.instance});
  }

  lemma KeepsLive(s: State, c: Call)
    requires c.Register? || c.CleanEnded? || c.UpdateTuple? || c.ApplyVerdict?
    requires c.Register? ==> c.instance !in s.gens
    ensures EndsOwed(s.gens, CallStep(s, c).gens, CallStep(s, c).work.owedEnds)
  {
  }

  /** Everything but clearing a family either keeps a generation live or owes its END. */
  lemma CallOwes(s: State, c: Call)
    requires !c.ClearCache? && (c.Register? ==> c.instance !in s.gens)
    ensures EndsOwed(s.gens, CallStep(s, c).gens, CallStep(s, c).work.owedEnds)
  {
    match c
    case CloseEndpoint(endpoint, pended) => CloseOwes(s, endpoint, pended);
    case EndSome(ipv6, instances) => EndSetOwes(s, LiveAmong(s.gens, ipv6, instances));
    case Register(_, _) => KeepsLive(s, c);
    case CleanEnded(_, _) => KeepsLive(s, c);
    case UpdateTuple(_, _) => KeepsLive(s, c);
    case ApplyVerdict(_) => KeepsLive(s, c);
    case ClearCache(_) => assert false;
    case _ => assert CallStep(s, c).gens == s.gens;
  }

  lemma EndJobOwes(s: State, endpoint: Endpoint)
    ensures EndsOwed(s.gens, DoReady(s, endpoint).gens, DoReady(s, endpoint).work.owedEnds)
    ensures EndsOwed(s.gens, DoEndNow(s, endpoint).gens, DoEndNow(s, endpoint).work.owedEnds)
  {
  }

  lemma JobOwes(s: State, j: Job)
    ensures EndsOwed(s.gens, JobStep(s, j).gens, JobStep(s, j).work.owedEnds)
  {
    match j
    case ReadyJob(endpoint) => EndJobOwes(s, endpoint);
    case EndNowJob(endpoint) => EndJobOwes(s, endpoint);
    case BlockDrainedJob(key, bound) =>
    case _ => assert JobStep(s, j).gens == s.gens;
  }

  // ---- deferred endpoint closures ------------------------------------------------------

  lemma WaitsForAll(s: State, g: nat)
    requires Reachable(s) && g in s.closures
    ensures EndpointRequests(s.cache, s.closures[g].endpoint.key, g) <= s.closures[g].waits
  {
    ReachableInv(s);
    assert ClosureOk(s.cache, s.work.finishing, s.work.ready, g, s.closures[g]);
  }

  lemma TakenWhenEmpty(s: State, endpoint: Endpoint)
    requires endpoint.instance in s.closures && endpoint.instance !in DoReady(s, endpoint).closures
    ensures s.closures[endpoint.instance].waits == {} && endpoint.instance in DoReady(s, endpoint).history.completed
  {
  }

  lemma ReadyTakes(s: State, endpoint: Endpoint)
    requires Reachable(s) && endpoint.instance in s.closures
    requires endpoint.instance !in DoReady(s, endpoint).closures
    ensures EndpointRequests(s.cache, s.closures[endpoint.instance].endpoint.key, endpoint.instance) == {}
    ensures endpoint.instance in DoReady(s, endpoint).history.completed
  {
    TakenWhenEmpty(s, endpoint);
    WaitsForAll(s, endpoint.instance);
  }

  lemma CompletedForGood(s: State, g: nat, later: seq<Label>)
    requires Reachable(s) && g in s.history.completed && ValidRun(s, later)
    ensures var t := RunAll(s, later); Dead(t.gens, t.numbers, g) && Unbound(t.cache, g)
  {
    RunForward(s, later);
    ReachableRun(s, later);
    ReachableInv(RunAll(s, later));
  }

  /**
   A closure completed through the ready path finds no request of its endpoint queued or
   being applied, and its generation stays over and unreferenced for the rest of the run.
   */
  lemma ReadyPathIsQuiet(s: State, endpoint: Endpoint, later: seq<Label>)
    requires Reachable(s) && Enabled(s, Run(ReadyJob(endpoint)))
    requires endpoint.instance in s.closures && endpoint.instance !in Step(s, Run(ReadyJob(endpoint))).closures
    requires ValidRun(Step(s, Run(ReadyJob(endpoint))), later)
    ensures EndpointRequests(s.cache, s.closures[endpoint.instance].endpoint.key, endpoint.instance) == {}
    ensures var t := RunAll(Step(s, Run(ReadyJob(endpoint))), later);
            Dead(t.gens, t.numbers, endpoint.instance) && Unbound(t.cache, endpoint.instance)
  {
    ReadyTakes(s, endpoint);
    ReachableStep(s, Run(ReadyJob(endpoint)));
    CompletedForGood(Step(s, Run(ReadyJob(endpoint))), endpoint.instance, later);
  }

  /** What moves a waiting closure along: a request it waits for, its completer, or a publisher in the way. */
  datatype Progress = Queued(id: nat) | Applying(id: nat) | Finishing(id: nat) | Completing(endpoint: Endpoint)

  ghost predicate Moves(s: State, g: nat, p: Progress) {
    g in s.closures &&
    match p
    case Queued(id) => id in s.closures[g].waits && id in IdSet(s.cache.queue)
    case Applying(id) => id in s.closures[g].waits && id in s.applying
    case Finishing(id) => id in s.closures[g].waits && id in s.work.finishing
    case Completing(endpoint) => s.closures[g].waits == {} && endpoint == s.closures[g].endpoint
                                 && endpoint in s.work.ready
  }

  /**
   No closure is stranded: each one waits for a request still to be decided, applied or
   finished, or has its completer scheduled.
   */
  lemma NoClosureStranded(s: State, g: nat) returns (p: Progress)
    requires Reachable(s) && g in s.closures
    ensures Moves(s, g, p)
  {
    ReachableInv(s);
    var k := s.closures[g];
    assert ClosureOk(s.cache, s.work.finishing, s.work.ready, g, k);
    if k.waits == {} {
      p := Completing(k.endpoint);
    } else {
      var id :| id in k.waits;
      assert Outstanding(s.cache, s.work.finishing, id);
      p := if id in IdSet(s.cache.queue) then Queued(id)
      else if id in s.work.finishing then Finishing(id)
      else Applying(id);
    }
  }

  predicate Settled(w: Work) {
    w.enqueues == multiset{} && w.announcements == multiset{} && w.finishing == multiset{} && w.ready == multiset{}
  }

  /** When every request has been decided and no thread has work left, no closure is left either. */
  lemma QuietMeansClosed(s: State)
    requires Reachable(s) && s.cache.queue == [] && s.applying == map[] && Settled(s.work)
    ensures s.closures == map[]
  {
    forall g | g in s.closures ensures false {
      var p := NoClosureStranded(s, g);
    }
  }

  // ---- a closure can always be brought to its end ------------------------------------------

  /** Steps the driver takes on its own, and the verdicts userspace owes it. */
  predicate Driven(l: Label, answer: nat -> Verdict) {
    l.Run? || l.call.ApplyVerdict? || (l.call.Verdicted? && l.call.verdict == answer(l.call.id))
  }

  ghost predicate DrivenRun(s: State, run: seq<Label>, answer: nat -> Verdict) {
    ValidRun(s, run) && forall l :: l in run ==> Driven(l, answer)
  }

  lemma {:induction false} RunAppend(s: State, a: seq<Label>, b: seq<Label>)
    requires ValidRun(s, a) && ValidRun(RunAll(s, a), b)
    ensures ValidRun(s, a + b) && RunAll(s, a + b) == RunAll(RunAll(s, a), b)
    decreases |b|
  {
    if b == [] {
      assert a + b == a;
    } else {
      assert (a + b)[..|a + b| - 1] == a + b[..|b| - 1];
      RunAppend(s, a, b[..|b| - 1]);
    }
  }

  lemma RunCons(s: State, l: Label, rest: seq<Label>, answer: nat -> Verdict)
    requires Enabled(s, l) && Driven(l, answer) && DrivenRun(Step(s, l), rest, answer)
    ensures DrivenRun(s, [l] + rest, answer) && RunAll(s, [l] + rest) == RunAll(Step(s, l), rest)
  {
    assert [] + [l] == [l];
    OneMore(s, [], l);
    RunAppend(s, [l], rest);
  }

  /** No publisher is between its liveness check and its last event. */
  predicate Unpublished(w: Work) {
    w.enqueues == multiset{} && w.announcements == multiset{}
  }

  /** Publishers can always finish, and take no closure away. */
  lemma {:induction false} PublishersLeave(s: State, answer: nat -> Verdict) returns (run: seq<Label>)
    ensures DrivenRun(s, run, answer)
    ensures Unpublished(RunAll(s, run).work) && RunAll(s, run).closures.Keys == s.closures.Keys
    decreases |s.work.enqueues|, |s.work.announcements|
  {
    if p :| p in s.work.enqueues {
      var l := Run(EnqueueJob(p));
      var rest := PublishersLeave(Step(s, l), answer);
      RunCons(s, l, rest, answer);
      run := [l] + rest;
    } else if a :| a in s.work.announcements {
      var l := Run(AnnounceJob(a));
      var rest := PublishersLeave(Step(s, l), answer);
      RunCons(s, l, rest, answer);
      run := [l] + rest;
    } else {
      run := [];
    }
  }

  /** One step nearer to the end of a closure, or there: fewer requests to wait for, to be decided, or to be applied. */
  predicate Closer(s: State, t: State, g: nat)
    requires g in s.closures
  {
    if g in t.closures then
      && Unpublished(t.work)
      && (|t.closures[g].waits| < |s.closures[g].waits|
          || (t.closures[g].waits == s.closures[g].waits
              && (|t.cache.queue| < |s.cache.queue| || (t.cache == s.cache && |t.applying| < |s.applying|))))
    else g in t.history.completed
  }

  lemma ClaimCloser(s: State, g: nat, id: nat, v: Verdict)
    requires g in s.closures && Unpublished(s.work) && id in IdSet(s.cache.queue)
    ensures Enabled(s, Call(Verdicted(id, v))) && Closer(s, Step(s, Call(Verdicted(id, v))), g)
  {
    assert Step(s, Call(Verdicted(id, v))) == DoVerdicted(s, id, v);
  }

  lemma ApplyCloser(s: State, g: nat, id: nat)
    requires g in s.closures && Unpublished(s.work) && id in s.applying
    ensures Enabled(s, Call(ApplyVerdict(id))) && Closer(s, Step(s, Call(ApplyVerdict(id))), g)
  {
    assert (s.applying - {id}).Keys == s.applying.Keys - {id};
    assert |s.applying - {id}| == |(s.applying - {id}).Keys|;
    assert |s.applying| == |s.applying.Keys|;
  }

  lemma FinishCloser(s: State, g: nat, id: nat)
    requires g in s.closures && Unpublished(s.work) && id in s.closures[g].waits && id in s.work.finishing
    ensures Enabled(s, Run(FinishJob(id))) && Closer(s, Step(s, Run(FinishJob(id))), g)
  {
  }

  lemma ClosureNumber(s: State, g: nat)
    requires Reachable(s) && g in s.closures
    ensures s.closures[g].endpoint.instance == g
  {
    ReachableInv(s);
    assert ClosureOk(s.cache, s.work.finishing, s.work.ready, g, s.closures[g]);
  }

  lemma ReadyCloser(s: State, g: nat, endpoint: Endpoint)
    requires Reachable(s) && g in s.closures && Unpublished(s.work)
    requires s.closures[g].waits == {} && endpoint == s.closures[g].endpoint && endpoint in s.work.ready
    ensures Enabled(s, Run(ReadyJob(endpoint))) && Closer(s, Step(s, Run(ReadyJob(endpoint))), g)
  {
    assert endpoint.instance == g by { ClosureNumber(s, g); }
  }

  lemma Approaches(s: State, g: nat, answer: nat -> Verdict) returns (l: Label)
    requires Reachable(s) && g in s.closures && Unpublished(s.work)
    ensures Enabled(s, l) && Driven(l, answer) && Closer(s, Step(s, l), g)
  {
    hide Reachable, Closer, Step, Enabled;
    var p := NoClosureStranded(s, g);
    match p
    case Queued(id) =>
      l := Call(Verdicted(id, answer(id)));
      ClaimCloser(s, g, id, answer(id));
    case Applying(id) =>
      l := Call(ApplyVerdict(id));
      ApplyCloser(s, g, id);
    case Finishing(id) =>
      l := Run(FinishJob(id));
      FinishCloser(s, g, id);
    case Completing(endpoint) =>
      l := Run(ReadyJob(endpoint));
      ReadyCloser(s, g, endpoint);
  }

  lemma {:induction false} Concludes(s: State, g: nat, answer: nat -> Verdict) returns (run: seq<Label>)
    requires Reachable(s) && g in s.closures && Unpublished(s.work)
    ensures DrivenRun(s, run, answer)
    ensures g !in RunAll(s, run).closures && g in RunAll(s, run).history.completed
    decreases |s.closures[g].waits|, |s.cache.queue|, |s.applying|
  {
    hide Reachable, Step, Enabled, Driven;
    var l := Approaches(s, g, answer);
    var rest: seq<Label> := [];
    if g in Step(s, l).closures {
      ReachableStep(s, l);
      rest := Concludes(Step(s, l), g, answer);
    }
    RunCons(s, l, rest, answer);
    run := [l] + rest;
  }

  /**
   From every reachable state a deferred closure can be brought to its end: whatever
   userspace answers, a run of the driver's own steps and of those answers completes it
   through the ready path.
   */
  lemma ClosureCompletes(s: State, g: nat, answer: nat -> Verdict) returns (run: seq<Label>)
    requires Reachable(s) && g in s.closures
    ensures DrivenRun(s, run, answer)
    ensures g !in RunAll(s, run).closures && g in RunAll(s, run).history.completed
  {
    hide Reachable, Driven;
    var a := PublishersLeave(s, answer);
    ReachableRun(s, a);
    var b := Concludes(RunAll(s, a), g, answer);
    RunAppend(s, a, b);
    run := a + b;
  }

  // ---- events --------------------------------------------------------------------------

  /** No CONN of a generation follows its END, and no generation has two ENDs, in any run. */
  lemma EventOrder(s: State)
    requires Reachable(s)
    ensures EventsOk(s.events)
    ensures forall g :: End(g) in s.events ==> !Live(s.gens, g) && g !in s.work.owedEnds
  {
    ReachableInv(s);
  }

  lemma LiveIsNotDue(s: State, g: nat)
    requires Reachable(s) && Live(s.gens, g)
    ensures !EndDue(s.work.owedEnds, s.events, g)
  {
    ReachableInv(s);
  }

  lemma DrawnIsNew(s: State)
    requires Reachable(s)
    ensures s.numbers.drawn !! s.gens.Keys
  {
    ReachableInv(s);
  }

  lemma StepOwes(s: State, l: Label)
    requires Reachable(s) && Enabled(s, l) && (l.Run? || !l.call.ClearCache?)
    ensures EndsOwed(s.gens, Step(s, l).gens, Step(s, l).work.owedEnds)
  {
    DrawnIsNew(s);
    match l
    case Call(c) => CallOwes(s, c);
    case Run(j) => JobOwes(s, j);
  }

  /** However a live generation ends, unless its whole family is cleared, exactly one END becomes due and stays due. */
  lemma EndingOwesOneEnd(s: State, l: Label, g: nat, later: seq<Label>)
    requires Reachable(s) && Enabled(s, l) && ValidRun(Step(s, l), later)
    requires Live(s.gens, g) && !Live(Step(s, l).gens, g)
    requires l.Run? || !l.call.ClearCache?
    ensures !EndDue(s.work.owedEnds, s.events, g)
    ensures var t := RunAll(Step(s, l), later); EndDue(t.work.owedEnds, t.events, g)
  {
    LiveIsNotDue(s, g);
    StepOwes(s, l);
    ReachableStep(s, l);
    RunForward(Step(s, l), later);
  }

  // ---- verdicts --------------------------------------------------------------------------

  predicate IsLocalhost(a: Address) {
    match a
    case V4(o) => o[0] == 127
    case V6(o) => o[15] == 1 && forall i :: 0 <= i < 15 ==> o[i] == 0
  }

  lemma LocalhostIsLoopback(a: Address)
    ensures IsLocalhost(a) <==> IsLoopback(a)
  {
    if a.V6? && IsLocalhost(a) {
      assert a.v6 == LOOPBACK_V6;
    }
  }

  predicate IsAccept(v: Verdict) {
    v == Accept || v == PermanentAccept
  }

  predicate IsRedirect(v: Verdict) {
    v == RedirectNameServer || v == RedirectTunnel || v == RedirectSplitTunnel
  }

  /** An outbound datagram that has been sent already. */
  predicate IsSentDatagram(p: Pending) {
    p.key.protocol == 17 && p.packet == Network(false)
  }

  /** Where a redirect verdict sends the packets of a connection, and how its replies are restored. */
  predicate Targets(info: RedirectInfo, own: Key, v: Verdict) {
    && info.localAddress == own.localAddress
    && info.remoteAddress == own.remoteAddress && info.remotePort == own.remotePort
    && info.redirectPort == (if v == RedirectNameServer then 53 else if v == RedirectTunnel then 717 else 719)
    && info.unify == (v != RedirectNameServer)
    && IsLocalhost(info.redirectAddress) && info.redirectAddress.V6? == own.localAddress.V6?
    && (info.redirectAddress.V4? ==> info.redirectAddress.v4 == [127, 0, 0, 1])
  }

  /**
   What becomes of a packet: injected when accepted, redirected when the verdict says so and
   its generation is there, and blocked in all other cases. `alone` is a packet that is decided
   without a generation.
   */
  predicate Settles(o: Outcome, v: Verdict, found: bool, alone: bool, own: Key) {
    && (o.Injected? <==> IsAccept(v) && (found || alone))
    && (o.Redirected? <==> IsRedirect(v) && found)
    && (o.Redirected? ==> Targets(o.info, own, v))
  }

  lemma OutcomeSettles(v: Verdict, own: Key)
    ensures Settles(OutcomeFor(v, RedirectOf(own, v)), v, true, false, own)
    ensures Settles(OutcomeFor(v, None), v, false, true, own) && Settles(Blocked, v, false, false, own)
  {
  }

  lemma DecideMeaning(s: State, p: Pending, v: Verdict)
    ensures var found := p.instance.Some? && LiveMatching(s, p.key, p.instance.value);
            var own := if found then s.gens[p.instance.value].key else p.key;
            Settles(Decide(s, p, v), v, found, p.instance.None? || IsSentDatagram(p), own)
  {
    hide Settles, OutcomeFor;
    OutcomeSettles(v, p.key);
    if p.instance.Some? && LiveMatching(s, p.key, p.instance.value) {
      OutcomeSettles(v, s.gens[p.instance.value].key);
      SettlesFound(Decide(s, p, v), v, false, IsSentDatagram(p), s.gens[p.instance.value].key);
    }
  }

  /** With its generation there, it does not matter whether a packet could be decided alone. */
  lemma SettlesFound(o: Outcome, v: Verdict, a: bool, b: bool, own: Key)
    requires Settles(o, v, true, a, own)
    ensures Settles(o, v, true, b, own)
  {
  }

  /** Every issued request is in exactly one place: queued, being applied, or settled with its one outcome. */
  lemma RequestsConserved(s: State, id: nat)
    requires Reachable(s)
    ensures 1 <= id < s.cache.nextId <==>
              id in IdSet(s.cache.queue) || id in s.applying || id in s.history.outcomes
    ensures !(id in IdSet(s.cache.queue) && id in s.applying)
    ensures id in s.history.outcomes ==> id !in IdSet(s.cache.queue) && id !in s.applying
  {
    ReachableInv(s);
  }

  /** Applying a verdict touches the generation its request is bound to, when that still matches, and no other. */
  lemma ApplyGens(s: State, id: nat)
    requires id in s.applying
    ensures var (p, v) := s.applying[id];
            DoApply(s, id).gens ==
              if p.instance.Some? && LiveMatching(s, p.key, p.instance.value)
              then s.gens[p.instance.value := s.gens[p.instance.value].(verdict := v)] else s.gens
    ensures id in DoApply(s, id).history.outcomes
    ensures DoApply(s, id).history.outcomes[id] == Decide(s, s.applying[id].0, s.applying[id].1)
  {
  }

  lemma BoundAsRecorded(s: State, id: nat)
    requires Reachable(s) && id in s.applying
    ensures id in s.history.recorded && RecordOk(s.history.recorded[id], s.applying[id].0)
  {
    ReachableInv(s);
  }

  /** A verdict changes policy on the generation recorded when its request was queued, and on nothing else. */
  lemma VerdictHitsRecorded(s: State, id: nat)
    requires Reachable(s) && Enabled(s, Call(ApplyVerdict(id)))
    ensures id in s.history.recorded
    ensures var t := Step(s, Call(ApplyVerdict(id)));
            && t.gens.Keys == s.gens.Keys
            && forall j :: j in s.gens && t.gens[j] != s.gens[j] ==>
                 s.history.recorded[id].instance == Some(j) && Live(s.gens, j)
                 && t.gens[j] == s.gens[j].(verdict := s.applying[id].1)
  {
    BoundAsRecorded(s, id);
    ApplyGens(s, id);
  }

  /**
   When the recorded generation is gone the packet is blocked, unless it is an outbound UDP
   clone, which is decided alone.
   */
  lemma LateVerdictBlocks(s: State, id: nat, i: nat)
    requires Reachable(s) && Enabled(s, Call(ApplyVerdict(id)))
    requires id in s.history.recorded && s.history.recorded[id].instance == Some(i) && !Live(s.gens, i)
    ensures var (p, v) := s.applying[id];
            var t := Step(s, Call(ApplyVerdict(id)));
            && t.gens == s.gens
            && id in t.history.outcomes
            && Settles(t.history.outcomes[id], v, false, IsSentDatagram(p), p.key)
  {
    hide Decide, Settles;
    BoundAsRecorded(s, id);
    ApplyGens(s, id);
    DecideMeaning(s, s.applying[id].0, s.applying[id].1);
  }

  /** A packet queued under the generation's own tuple. */
  predicate OwnTuple(s: State, p: Pending, i: nat) {
    i in s.gens && p.key == s.gens[i].key
  }

  /** A packet queued under the tuple its generation's replies arrive with while it is redirected. */
  predicate AliasTuple(s: State, p: Pending, i: nat) {
    && i in s.gens && IsIpv6(s.gens[i].key) == IsIpv6(p.key) && Small(s.gens[i].key) == Small(p.key)
    && IsRedirectPort(p.key.remotePort, s.ignoreSpecialPorts)
    && RedirectEquals(s.gens[i].key, s.gens[i].verdict, p.key)
  }

  /**
   A verdict reaches its live generation exactly when the packet carries its own tuple or its
   present redirect alias.
   */
  lemma LiveVerdictApplies(s: State, id: nat, i: nat)
    requires Reachable(s) && Enabled(s, Call(ApplyVerdict(id)))
    requires s.applying[id].0.instance == Some(i) && Live(s.gens, i)
    ensures var (p, v) := s.applying[id];
            var t := Step(s, Call(ApplyVerdict(id)));
            && i in t.gens
            && t.gens[i].verdict == (if OwnTuple(s, p, i) || AliasTuple(s, p, i) then v else s.gens[i].verdict)
            && id in t.history.outcomes
            && Settles(t.history.outcomes[id], v, OwnTuple(s, p, i) || AliasTuple(s, p, i), IsSentDatagram(p),
                       if OwnTuple(s, p, i) || AliasTuple(s, p, i) then s.gens[i].key else p.key)
  {
    hide Decide, Settles;
    ApplyGens(s, id);
    DecideMeaning(s, s.applying[id].0, s.applying[id].1);
  }

  // ---- a request published under its generation's own tuple ---------------------------------

  /** A registered generation keeps its tuple as long as it is stored, and its number is never used again. */
  ghost predicate KeysKept(s: State, t: State, i: nat) {
    Issued(s.numbers, i) ==> Issued(t.numbers, i) && (i in t.gens ==> i in s.gens && t.gens[i].key == s.gens[i].key)
  }

  lemma CallKeys(s: State, c: Call, i: nat)
    requires CallEnabled(s, c)
    ensures KeysKept(s, CallStep(s, c), i)
  {
  }

  lemma JobKeys(s: State, j: Job, i: nat)
    ensures KeysKept(s, JobStep(s, j), i)
  {
  }

  lemma {:induction false} RunKeys(s: State, run: seq<Label>, i: nat)
    requires ValidRun(s, run)
    ensures KeysKept(s, RunAll(s, run), i)
    decreases |run|
  {
    hide CallStep, JobStep;
    if run != [] {
      var t := RunAll(s, run[..|run| - 1]);
      RunKeys(s, run[..|run| - 1], i);
      match run[|run| - 1]
      case Call(c) => CallKeys(t, c, i);
      case Run(j) => JobKeys(t, j, i);
    }
  }

  /** While its generation lives, a request stays bound to it under the tuple it was queued with. */
  lemma LiveStaysBound(s: State, id: nat, key: Key, i: nat)
    requires Reachable(s) && id in s.applying && id in s.history.recorded
    requires s.history.recorded[id] == Identity(key, Some(i)) && Live(s.gens, i)
    ensures s.applying[id].0.key == key && s.applying[id].0.instance == Some(i)
  {
    ReachableInv(s);
  }

  lemma EnqueueRecords(s: State, p: Publication, id: nat)
    requires id in NewIds(s.cache, p)
    ensures id in DoEnqueue(s, p).history.recorded
            && DoEnqueue(s, p).history.recorded[id] == Identity(p.key, p.instance)
    ensures DoEnqueue(s, p).gens == s.gens && DoEnqueue(s, p).numbers == s.numbers
  {
  }

  lemma StoredIsIssued(s: State, i: nat)
    requires Reachable(s) && i in s.gens
    ensures Issued(s.numbers, i)
  {
    ReachableInv(s);
  }

  /**
   A request published under its generation's own tuple has its verdict applied to that
   generation and to its packet in every continuation in which the generation still lives.
   */
  lemma OwnTupleVerdictApplies(s: State, p: Publication, i: nat, id: nat, later: seq<Label>)
    requires Reachable(s) && Enabled(s, Run(EnqueueJob(p))) && id in NewIds(s.cache, p)
    requires p.instance == Some(i) && i in s.gens && s.gens[i].key == p.key
    requires ValidRun(Step(s, Run(EnqueueJob(p))), later)
    requires var t := RunAll(Step(s, Run(EnqueueJob(p))), later);
             Enabled(t, Call(ApplyVerdict(id))) && Live(t.gens, i)
    ensures var t := RunAll(Step(s, Run(EnqueueJob(p))), later);
            var (q, v) := t.applying[id];
            var u := Step(t, Call(ApplyVerdict(id)));
            && u.gens == t.gens[i := t.gens[i].(verdict := v)]
            && id in u.history.outcomes
            && Settles(u.history.outcomes[id], v, true, true, p.key)
  {
    hide Reachable, Decide, Settles;
    var s1 := Step(s, Run(EnqueueJob(p)));
    var t := RunAll(s1, later);
    EnqueueRecords(s, p, id);
    ReachableStep(s, Run(EnqueueJob(p)));
    RunForward(s1, later);
    ReachableRun(s1, later);
    StoredIsIssued(s, i);
    RunKeys(s1, later, i);
    LiveStaysBound(t, id, p.key, i);
    ApplyGens(t, id);
    DecideMeaning(t, t.applying[id].0, t.applying[id].1);
    var (q, v) := t.applying[id];
    SettlesFound(Decide(t, q, v), v, IsSentDatagram(q), true, p.key);
  }

  /** A settled packet keeps its outcome whatever happens afterwards. */
  lemma OutcomeIsFinal(s: State, id: nat, later: seq<Label>)
    requires Reachable(s) && ValidRun(s, later) && id in s.history.outcomes
    ensures id in RunAll(s, later).history.outcomes
    ensures RunAll(s, later).history.outcomes[id] == s.history.outcomes[id]
  {
    RunForward(s, later);
  }

  // ---- a verdict that misses its own live generation -----------------------------------

  const TUPLE := Key(TCP, V4([10, 0, 0, 2]), 5000, V4([8, 8, 8, 8]), 80)
  const ALIAS := Key(TCP, V4([10, 0, 0, 2]), 5000, V4([127, 0, 0, 1]), 53)
  const ARRIVAL := Publication(ALIAS, [Ale], Some(1), 0)

  lemma TupleRegistered() returns (s: State)
    ensures Before(s, map[1 := Generation(TUPLE, Undecided, false)], EMPTY, IDLE)
  {
    var s0 := Init(false);
    assert Reachable(s0) by { assert ValidRun(s0, []) && RunAll(s0, []) == s0; }
    hide Reachable;
    ReachableStep(s0, Call(Draw));
    var s1 := DoDraw(s0);
    assert LiveTwin(s1.gens, TUPLE) == {};
    ReachableStep(s1, Call(Register(TUPLE, 1)));
    s := DoRegister(s1, TUPLE, 1);
  }

  /** The redirected connection, before anything is published. */
  lemma RedirectedReachable() returns (s: State)
    ensures Before(s, REDIRECTED, EMPTY, IDLE)
  {
    hide Reachable;
    var t := TupleRegistered();
    assert 1 in LiveTwin(t.gens, TUPLE);
    ReachableStep(t, Call(UpdateTuple(TUPLE, RedirectNameServer)));
    s := DoUpdate(t, TUPLE, RedirectNameServer);
  }

  ghost predicate Before(s: State, gens: Gens, cache: Cache, w: Work) {
    && Reachable(s) && !s.ignoreSpecialPorts
    && s.gens == gens && s.cache == cache && s.work == w && s.applying == map[] && s.closures == map[]
  }

  const REDIRECTED: Gens := map[1 := Generation(TUPLE, RedirectNameServer, false)]

  lemma ArrivalPublished(s: State)
    requires Before(s, REDIRECTED, EMPTY, IDLE)
    ensures Before(Step(s, Call(Publish(ARRIVAL))), REDIRECTED, EMPTY, IDLE.(enqueues := multiset{ARRIVAL}))
  {
    hide Reachable;
    ReachableStep(s, Call(Publish(ARRIVAL)));
    assert LiveMatching(s, ALIAS, 1);
  }

  lemma ArrivalId()
    ensures Push(EMPTY, ALIAS, [Ale], Some(1), 0).queue == [Entry(1, Pending(ALIAS, Ale, Some(1)))]
    ensures NewIds(EMPTY, ARRIVAL) == {1}
    ensures Announcements(ARRIVAL, {1}) == {Announcement(false, Some(1), 1)}
  {
    var added := NewEntries(1, ALIAS, [Ale], Some(1));
    assert added == [Entry(1, Pending(ALIAS, Ale, Some(1)))];
    assert IdSet(added) == {1} by {
      assert added[0].id == 1;
    }
    assert Announcement(false, Some(1), 1) in Announcements(ARRIVAL, {1});
  }

  lemma ArrivalEnqueued(s: State)
    requires Before(s, REDIRECTED, EMPTY, IDLE.(enqueues := multiset{ARRIVAL}))
    ensures Before(Step(s, Run(EnqueueJob(ARRIVAL))), REDIRECTED, Push(EMPTY, ALIAS, [Ale], Some(1), 0),
                   IDLE.(announcements := multiset{Announcement(false, Some(1), 1)}))
  {
    hide Reachable;
    ReachableStep(s, Run(EnqueueJob(ARRIVAL)));
    ArrivalId();
  }

  lemma ArrivalAnnounced(s: State)
    requires Before(s, REDIRECTED, Push(EMPTY, ALIAS, [Ale], Some(1), 0),
                    IDLE.(announcements := multiset{Announcement(false, Some(1), 1)}))
    ensures Before(Step(s, Run(AnnounceJob(Announcement(false, Some(1), 1)))), REDIRECTED,
                   Push(EMPTY, ALIAS, [Ale], Some(1), 0), IDLE)
  {
    hide Reachable;
    ReachableStep(s, Run(AnnounceJob(Announcement(false, Some(1), 1))));
  }

  lemma ArrivalQueued() returns (t: State)
    ensures Before(t, REDIRECTED, Push(EMPTY, ALIAS, [Ale], Some(1), 0), IDLE)
  {
    hide Reachable;
    var s := RedirectedReachable();
    ArrivalPublished(s);
    var s1 := Step(s, Call(Publish(ARRIVAL)));
    ArrivalEnqueued(s1);
    var s2 := Step(s1, Run(EnqueueJob(ARRIVAL)));
    ArrivalAnnounced(s2);
    t := Step(s2, Run(AnnounceJob(Announcement(false, Some(1), 1))));
  }

  lemma ArrivalClaimed() returns (s: State)
    ensures Reachable(s) && s.gens == REDIRECTED && s.work == IDLE && !s.ignoreSpecialPorts
    ensures s.applying == map[1 := (Pending(ALIAS, Ale, Some(1)), Accept)]
  {
    hide Reachable;
    var t := ArrivalQueued();
    ArrivalId();
    s := Step(t, Call(Verdicted(1, Accept)));
    ReachableStep(t, Call(Verdicted(1, Accept)));
  }

  lemma PolicyChanged(t: State)
    requires t.gens == REDIRECTED
    ensures DoUpdate(t, TUPLE, Block) == t.(gens := map[1 := Generation(TUPLE, Block, false)])
  {
    assert 1 in LiveTwin(t.gens, TUPLE);
  }

  /** The answer to a packet under the old alias no longer finds its generation. */
  lemma AliasGone(s: State)
    requires s.gens == map[1 := Generation(TUPLE, Block, false)] && !s.ignoreSpecialPorts
    ensures !LiveMatching(s, ALIAS, 1) && Decide(s, Pending(ALIAS, Ale, Some(1)), Accept) == Blocked
  {
  }

  /**
   Being live is not enough for a packet published under an alias: a policy change between
   the question and the answer can void the answer.
   */
  lemma LiveVerdictDiscarded() returns (s: State, id: nat)
    ensures Reachable(s) && Enabled(s, Call(ApplyVerdict(id)))
    ensures id in s.history.recorded && s.history.recorded[id].instance == Some(1) && Live(s.gens, 1)
    ensures s.applying[id].1 == Accept
    ensures var t := Step(s, Call(ApplyVerdict(id))); id in t.history.outcomes && t.history.outcomes[id] == Blocked
  {
    hide Reachable, Decide, DoUpdate, DoApply, LiveMatching;
    var t := ArrivalClaimed();
    ReachableStep(t, Call(UpdateTuple(TUPLE, Block)));
    PolicyChanged(t);
    s, id := DoUpdate(t, TUPLE, Block), 1;
    AliasGone(s);
    BoundAsRecorded(s, id);
    ApplyGens(s, id);
  }
}
