/**
 The protocol that ties connection generations, pending requests, deferred TCP endpoint
 closures and userspace events together.

 Every critical section of the driver is one step. Work that threads still have to do
 after leaving a critical section is held in `Work`; a step may run any piece of it, so
 the model has every interleaving of the driver and more. A publisher holds the read guard
 of its family's connection map from the liveness check until its last event is queued:
 those are the enqueues and announcements bound to an instance, and a step that takes the
 write guard waits for them.
 */
module Lifecycle {
  import opened Net
  import opened RequestSpec

  /** One cached connection: its tuple, its policy, and whether its lifetime is over. */
  datatype Generation = Generation(key: Key, verdict: Verdict, ended: bool)

  /** Instance numbers: the next one, and those drawn for a candidate that is not registered yet. */
  datatype Numbers = Numbers(next: nat, drawn: set<nat>)

  /** A number that has been through registration. */
  predicate Issued(n: Numbers, instance: nat) {
    1 <= instance < n.next && instance !in n.drawn
  }

  datatype Endpoint = Endpoint(key: Key, instance: nat)

  /** A pended endpoint closure and the requests it still waits for. */
  datatype Closure = Closure(endpoint: Endpoint, waits: set<nat>)

  datatype Event = Conn(instance: Option<nat>, id: nat) | End(ended: nat)

  datatype Publication = Publication(key: Key, packets: seq<Packet>, instance: Option<nat>, thread: nat)

  datatype Announcement = Announcement(ipv6: bool, instance: Option<nat>, id: nat)

  datatype Work = Work(
    enqueues: multiset<Publication>,
    announcements: multiset<Announcement>,
    finishing: multiset<nat>,
    ready: multiset<Endpoint>,
    retiring: multiset<set<nat>>,
    owedEnds: multiset<nat>,
    endNow: multiset<Endpoint>,
    blocking: multiset<(Key, nat)>)

  /**
   Histories: the tuple and the instance each request was queued with, what became of each packet, and
   the closures that went through the ready path.
   */
  datatype History = History(recorded: map<nat, Identity>, outcomes: map<nat, Outcome>, completed: set<nat>)

  datatype State = State(
    ignoreSpecialPorts: bool,
    gens: map<nat, Generation>,
    numbers: Numbers,
    cache: Cache,
    applying: map<nat, (Pending, Verdict)>,
    closures: map<nat, Closure>,
    events: seq<Event>,
    work: Work,
    history: History)

  const IDLE := Work(multiset{}, multiset{}, multiset{}, multiset{}, multiset{}, multiset{}, multiset{}, multiset{})

  function Init(ignoreSpecialPorts: bool): State {
    State(ignoreSpecialPorts, map[], Numbers(1, {}), EMPTY, map[], map[], [], IDLE, History(map[], map[], {}))
  }

  predicate Live(gens: map<nat, Generation>, instance: nat) {
    instance in gens && !gens[instance].ended
  }

  predicate LiveExact(gens: map<nat, Generation>, endpoint: Endpoint) {
    Live(gens, endpoint.instance) && gens[endpoint.instance].key == endpoint.key
  }

  /** The instance lookup used by publication and verdicts: exact tuple, or the generation's current redirect alias. */
  predicate LiveMatching(s: State, key: Key, instance: nat) {
    && Live(s.gens, instance)
    && var g := s.gens[instance];
       && IsIpv6(g.key) == IsIpv6(key)
       && Small(g.key) == Small(key)
       && (g.key == key
           || (IsRedirectPort(key.remotePort, s.ignoreSpecialPorts) && RedirectEquals(g.key, g.verdict, key)))
  }

  /** Some publisher holds the read guard of this family. */
  ghost predicate Reading(w: Work, ipv6: bool) {
    || (exists p :: p in w.enqueues && p.instance.Some? && IsIpv6(p.key) == ipv6)
    || (exists a :: a in w.announcements && a.instance.Some? && a.ipv6 == ipv6)
  }

  // ---- effects shared by several steps ---------------------------------------------

  function EndGens(gens: map<nat, Generation>, ended: set<nat>): map<nat, Generation> {
    map i | i in gens :: if i in ended then gens[i].(ended := true) else gens[i]
  }

  /** Marks generations ended under the write guard; their requests are retired and their END is emitted afterwards. */
  function EndSet(s: State, ended: set<nat>): State {
    s.(gens := EndGens(s.gens, ended),
       work := s.work.(retiring := s.work.retiring + multiset{ended},
                       owedEnds := s.work.owedEnds + multiset(ended)))
  }

  function SetVerdict(s: State, instance: nat, verdict: Verdict): State
    requires instance in s.gens
  {
    s.(gens := s.gens[instance := s.gens[instance].(verdict := verdict)])
  }

  /** Packets completed as blocked without a verdict; each still has to be finished. */
  function BlockAll(s: State, ids: set<nat>): State {
    s.(work := s.work.(finishing := s.work.finishing + multiset(ids)),
       history := s.history.(outcomes := s.history.outcomes + map id | id in ids :: Blocked))
  }

  // ---- verdicts ------------------------------------------------------------------

  datatype Outcome = Blocked | Injected | Redirected(info: RedirectInfo)

  function OutcomeFor(verdict: Verdict, redirect: Option<RedirectInfo>): Outcome {
    match verdict
    case Accept => Injected
    case PermanentAccept => Injected
    case RedirectNameServer => if redirect.Some? then Redirected(redirect.value) else Blocked
    case RedirectTunnel => if redirect.Some? then Redirected(redirect.value) else Blocked
    case RedirectSplitTunnel => if redirect.Some? then Redirected(redirect.value) else Blocked
    case _ => Blocked
  }

  /** What happens to the packet itself when its verdict is applied. */
  function Decide(s: State, p: Pending, verdict: Verdict): Outcome {
    match p.instance
    case None => OutcomeFor(verdict, None)
    case Some(i) =>
      if LiveMatching(s, p.key, i) then OutcomeFor(verdict, RedirectOf(s.gens[i].key, verdict))
      else if Survives(p.packet, p.key) then OutcomeFor(verdict, None)
      else Blocked
  }

  // ---- calls from outside ------------------------------------------------------------

  function LiveTwin(gens: map<nat, Generation>, key: Key): set<nat> {
    set i | i in gens && !gens[i].ended && gens[i].key == key
  }

  /** A candidate draws its number before the map is locked, so numbers can be registered out of order. */
  function DoDraw(s: State): State {
    s.(numbers := Numbers(s.numbers.next + 1, s.numbers.drawn + {s.numbers.next}))
  }

  /** The candidate is inserted only when the exact tuple has no live entry; its number is used up either way. */
  function DoRegister(s: State, key: Key, instance: nat): State {
    s.(numbers := s.numbers.(drawn := s.numbers.drawn - {instance}),
       gens := if SameFamily(key) && LiveTwin(s.gens, key) == {}
               then s.gens[instance := Generation(key, Undecided, false)] else s.gens)
  }

  /** A packet bound to a generation that is no longer live is refused before anything is queued. */
  function DoPublish(s: State, p: Publication): State {
    if p.instance.None? || LiveMatching(s, p.key, p.instance.value)
    then s.(work := s.work.(enqueues := s.work.enqueues + multiset{p})) else s
  }

  function DoVerdicted(s: State, id: nat, verdict: Verdict): State {
    var (p, cache) := Claim(s.cache, id);
    if p.None? then s
    else s.(cache := cache, applying := s.applying[id := (p.value, verdict)])
  }

  /** The packet is settled; its request stays in progress until it is finished. */
  function Settle(s: State, id: nat, outcome: Outcome): State {
    s.(applying := s.applying - {id},
       work := s.work.(finishing := s.work.finishing + multiset{id}),
       history := s.history.(outcomes := s.history.outcomes[id := outcome]))
  }

  function DoApply(s: State, id: nat): State
    requires id in s.applying
  {
    var (p, verdict) := s.applying[id];
    var t := Settle(s, id, Decide(s, p, verdict));
    if p.instance.Some? && LiveMatching(s, p.key, p.instance.value)
    then SetVerdict(t, p.instance.value, verdict) else t
  }

  /** An endpoint with requests in sight is pended; a failed or duplicate pend ends the generation at once. */
  function DoClose(s: State, endpoint: Endpoint, pended: bool): State {
    if !LiveExact(s.gens, endpoint) then s else
      var ids := EndpointRequests(s.cache, endpoint.key, endpoint.instance);
      if ids == {} then EndSet(s, {endpoint.instance})
      else if !pended || endpoint.instance in s.closures then
        s.(work := s.work.(endNow := s.work.endNow + multiset{endpoint}))
      else s.(closures := s.closures[endpoint.instance := Closure(endpoint, ids)])
  }

  function LiveAmong(gens: map<nat, Generation>, ipv6: bool, instances: set<nat>): set<nat> {
    set i | i in instances && Live(gens, i) && IsIpv6(gens[i].key) == ipv6
  }

  /**
   Stands for every end path by handle, flow, local endpoint or expiry: whichever of the
   instances are still live end.
   */
  function DoEndSome(s: State, ipv6: bool, instances: set<nat>): State {
    EndSet(s, LiveAmong(s.gens, ipv6, instances))
  }

  function DoClear(s: State, ipv6: bool): State {
    s.(gens := map i | i in s.gens && IsIpv6(s.gens[i].key) != ipv6 :: s.gens[i])
  }

  function DoClean(s: State, instances: set<nat>): State {
    s.(gens := map i | i in s.gens && !(i in instances && s.gens[i].ended) :: s.gens[i])
  }

  function DoUpdate(s: State, key: Key, verdict: Verdict): State {
    s.(gens := map i | i in s.gens ::
         if i in LiveTwin(s.gens, key) then s.gens[i].(verdict := verdict) else s.gens[i])
  }

  function Bindings(q: seq<Entry>): set<(Key, nat)> {
    set e | e in q && e.value.instance.Some? :: (e.value.key, e.value.instance.value)
  }

  function DoDrainRequests(s: State): State {
    var t := BlockAll(s.(cache := Drain(s.cache)), IdSet(s.cache.queue));
    t.(work := t.work.(blocking := t.work.blocking + multiset(Bindings(s.cache.queue))))
  }

  function Endpoints(closures: map<nat, Closure>): set<Endpoint> {
    set g | g in closures :: closures[g].endpoint
  }

  function DoDrainClosures(s: State): State {
    s.(closures := map[], work := s.work.(endNow := s.work.endNow + multiset(Endpoints(s.closures))))
  }

  // ---- work left behind by earlier steps ---------------------------------------------

  function AddRequests(c: Closure, key: Key, instance: Option<nat>, ids: set<nat>): Closure {
    if RequestMatches(c.endpoint.key, c.endpoint.instance, key, instance) then c.(waits := c.waits + ids) else c
  }

  function NewIds(c: Cache, p: Publication): set<nat> {
    if SameFamily(p.key) then IdSet(NewEntries(c.nextId, p.key, p.packets, p.instance)) else {}
  }

  function Announcements(p: Publication, ids: set<nat>): set<Announcement> {
    set id | id in ids :: Announcement(IsIpv6(p.key), p.instance, id)
  }

  /** Queues the packets and makes every matching closure wait for them, in one critical section. */
  function DoEnqueue(s: State, p: Publication): State {
    var ids := NewIds(s.cache, p);
    s.(cache := Push(s.cache, p.key, p.packets, p.instance, p.thread),
       history := s.history.(recorded := s.history.recorded + map id | id in ids :: Identity(p.key, p.instance)),
       closures := map g | g in s.closures :: AddRequests(s.closures[g], p.key, p.instance, ids),
       work := s.work.(enqueues := s.work.enqueues - multiset{p},
                       announcements := s.work.announcements + multiset(Announcements(p, ids))))
  }

  function DoAnnounce(s: State, a: Announcement): State {
    s.(events := s.events + [Conn(a.instance, a.id)],
       work := s.work.(announcements := s.work.announcements - multiset{a}))
  }

  function Waiting(closures: map<nat, Closure>, id: nat): map<nat, Closure> {
    map g | g in closures :: closures[g].(waits := closures[g].waits - {id})
  }

  function Ready(closures: map<nat, Closure>): set<Endpoint> {
    set g | g in closures && closures[g].waits == {} :: closures[g].endpoint
  }

  /** Finishes one request and schedules every closure that waits for nothing any more. */
  function DoFinish(s: State, id: nat): State {
    s.(cache := Finish(s.cache, id),
       closures := Waiting(s.closures, id),
       work := s.work.(finishing := s.work.finishing - multiset{id},
                       ready := s.work.ready + multiset(Ready(Waiting(s.closures, id)))))
  }

  /** Claims a ready closure and ends its generation under the same write guard. */
  function DoReady(s: State, endpoint: Endpoint): State {
    var g := endpoint.instance;
    var u := s.(work := s.work.(ready := s.work.ready - multiset{endpoint}));
    if g in s.closures && s.closures[g].waits == {} then
      var t := u.(closures := s.closures - {g},
                  history := s.history.(completed := s.history.completed + {g}));
      if LiveExact(s.gens, endpoint) then EndSet(t, {g}) else t
    else u
  }

  function DoRetire(s: State, instances: set<nat>): State {
    BlockAll(s.(cache := Retire(s.cache, instances - {0}),
                work := s.work.(retiring := s.work.retiring - multiset{instances})),
             IdSet(Removed(s.cache.queue, instances - {0})))
  }

  function DoEmitEnd(s: State, ended: nat): State {
    s.(events := s.events + [End(ended)], work := s.work.(owedEnds := s.work.owedEnds - multiset{ended}))
  }

  function DoEndNow(s: State, endpoint: Endpoint): State {
    var t := s.(work := s.work.(endNow := s.work.endNow - multiset{endpoint}));
    if LiveExact(s.gens, endpoint) then EndSet(t, {endpoint.instance}) else t
  }

  function DoBlockDrained(s: State, key: Key, bound: nat): State {
    var t := s.(work := s.work.(blocking := s.work.blocking - multiset{(key, bound)}));
    if LiveMatching(s, key, bound) then SetVerdict(t, bound, PermanentBlock) else t
  }

  // ---- the transition system ---------------------------------------------------------

  datatype Call =
    | Draw
    | Register(key: Key, instance: nat)
    | Publish(publication: Publication)
    | Verdicted(id: nat, verdict: Verdict)
    | ApplyVerdict(id: nat)
    | CloseEndpoint(endpoint: Endpoint, pended: bool)
    | EndSome(ipv6: bool, instances: set<nat>)
    | ClearCache(ipv6: bool)
    | CleanEnded(ipv6: bool, instances: set<nat>)
    | UpdateTuple(key: Key, verdict: Verdict)
    | DrainRequests
    | DrainClosures

  datatype Job =
    | EnqueueJob(publication: Publication)
    | AnnounceJob(announcement: Announcement)
    | FinishJob(id: nat)
    | ReadyJob(endpoint: Endpoint)
    | RetireJob(instances: set<nat>)
    | EmitEndJob(ended: nat)
    | EndNowJob(endpoint: Endpoint)
    | BlockDrainedJob(key: Key, bound: nat)

  datatype Label = Call(call: Call) | Run(job: Job)

  /** Steps that take a connection map's write guard wait for the publishers of its family. */
  ghost predicate CallEnabled(s: State, c: Call) {
    match c
    case Draw => true
    case Register(key, instance) => instance in s.numbers.drawn && !Reading(s.work, IsIpv6(key))
    case Publish(_) => true
    case Verdicted(_, _) => true
    case ApplyVerdict(id) =>
      && id in s.applying
      && (s.applying[id].0.instance.Some? ==> !Reading(s.work, IsIpv6(s.applying[id].0.key)))
    case CloseEndpoint(endpoint, _) => !Reading(s.work, IsIpv6(endpoint.key))
    case EndSome(ipv6, _) => !Reading(s.work, ipv6)
    case ClearCache(ipv6) => !Reading(s.work, ipv6)
    case CleanEnded(ipv6, instances) =>
      !Reading(s.work, ipv6) && forall i :: i in instances && i in s.gens ==> IsIpv6(s.gens[i].key) == ipv6
    case UpdateTuple(key, _) => !Reading(s.work, IsIpv6(key))
    case DrainRequests => true
    case DrainClosures => true
  }

  function CallStep(s: State, c: Call): State {
    match c
    case Draw => DoDraw(s)
    case Register(key, instance) => DoRegister(s, key, instance)
    case Publish(p) => DoPublish(s, p)
    case Verdicted(id, verdict) => DoVerdicted(s, id, verdict)
    case ApplyVerdict(id) => if id in s.applying then DoApply(s, id) else s
    case CloseEndpoint(endpoint, pended) => DoClose(s, endpoint, pended)
    case EndSome(ipv6, instances) => DoEndSome(s, ipv6, instances)
    case ClearCache(ipv6) => DoClear(s, ipv6)
    case CleanEnded(_, instances) => DoClean(s, instances)
    case UpdateTuple(key, verdict) => DoUpdate(s, key, verdict)
    case DrainRequests => DoDrainRequests(s)
    case DrainClosures => DoDrainClosures(s)
  }

  /** A job must be outstanding, and waits for publishers when it takes a write guard. */
  ghost predicate JobEnabled(s: State, j: Job) {
    match j
    case EnqueueJob(p) => p in s.work.enqueues
    case AnnounceJob(a) => a in s.work.announcements
    case FinishJob(id) => id in s.work.finishing
    case ReadyJob(endpoint) => endpoint in s.work.ready && !Reading(s.work, IsIpv6(endpoint.key))
    case RetireJob(instances) => instances in s.work.retiring
    case EmitEndJob(ended) => ended in s.work.owedEnds
    case EndNowJob(endpoint) => endpoint in s.work.endNow && !Reading(s.work, IsIpv6(endpoint.key))
    case BlockDrainedJob(key, bound) => (key, bound) in s.work.blocking && !Reading(s.work, IsIpv6(key))
  }

  function JobStep(s: State, j: Job): State {
    match j
    case EnqueueJob(p) => DoEnqueue(s, p)
    case AnnounceJob(a) => DoAnnounce(s, a)
    case FinishJob(id) => DoFinish(s, id)
    case ReadyJob(endpoint) => DoReady(s, endpoint)
    case RetireJob(instances) => DoRetire(s, instances)
    case EmitEndJob(ended) => DoEmitEnd(s, ended)
    case EndNowJob(endpoint) => DoEndNow(s, endpoint)
    case BlockDrainedJob(key, bound) => DoBlockDrained(s, key, bound)
  }

  ghost predicate Enabled(s: State, l: Label) {
    match l case Call(c) => CallEnabled(s, c) case Run(j) => JobEnabled(s, j)
  }

  function Step(s: State, l: Label): State {
    match l case Call(c) => CallStep(s, c) case Run(j) => JobStep(s, j)
  }
}
