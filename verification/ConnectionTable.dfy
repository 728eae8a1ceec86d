/**
 The connection cache of one address family as plain lists: one list per protocol and
 local port, ordered by remote endpoint and then by insertion. The adaptive index is
 proved against the functions here.
 */
module ConnectionTable {
  import opened Net

  datatype Conn = Conn(
    key: Key, verdict: Verdict, process: nat, thread: nat, instance: nat,
    accessed: nat, endTime: nat, direction: Direction, native: bool, idle: bool)

  predicate Ended(c: Conn) {
    c.endTime > 0
  }

  // ---- remote endpoints ----------------------------------------------------------------

  datatype Endpoint = Endpoint(address: nat, port: nat)

  function Octets(a: Address): seq<Byte> {
    match a case V4(o) => o case V6(o) => o
  }

  function EndpointOf(key: Key): Endpoint {
    Endpoint(BigEndian(Octets(key.remoteAddress)), key.remotePort)
  }

  predicate Below(a: Endpoint, b: Endpoint) {
    a.address < b.address || (a.address == b.address && a.port < b.port)
  }

  /** Within one family the compact endpoint identifies the remote address and port. */
  lemma EndpointIdentifies(a: Key, b: Key)
    requires a.remoteAddress.V6? == b.remoteAddress.V6?
    ensures EndpointOf(a) == EndpointOf(b) <==> a.remoteAddress == b.remoteAddress && a.remotePort == b.remotePort
  {
    if EndpointOf(a) == EndpointOf(b) {
      BigEndianInjective(Octets(a.remoteAddress), Octets(b.remoteAddress));
    }
  }

  // ---- looking for a connection ----------------------------------------------------------

  /** Match the exact tuple or the redirect alias, live or ended, and possibly one instance only. */
  datatype Query = Query(key: Key, alias: bool, ended: bool, instance: Option<nat>)

  predicate Hits(q: Query, c: Conn) {
    && (if q.alias then RedirectEquals(c.key, c.verdict, q.key) else c.key == q.key)
    && Ended(c) == q.ended
    && (q.instance.Some? ==> c.instance == q.instance.value)
  }

  function First(l: seq<Conn>, q: Query): (r: Option<Conn>)
    ensures r.Some? ==> r.value in l && Hits(q, r.value)
    ensures r.None? ==> forall c :: c in l ==> !Hits(q, c)
  {
    if l == [] then None else if Hits(q, l[0]) then Some(l[0]) else First(l[1..], q)
  }

  /** The query whose first hit a lookup returns: live before ended, exact before redirected. */
  function Winner(l: seq<Conn>, key: Key, scan: bool, fallback: bool): Option<Query> {
    if First(l, Query(key, false, false, None)).Some? then Some(Query(key, false, false, None))
    else if scan && First(l, Query(key, true, false, None)).Some? then Some(Query(key, true, false, None))
    else if fallback && First(l, Query(key, false, true, None)).Some? then Some(Query(key, false, true, None))
    else if fallback && scan && First(l, Query(key, true, true, None)).Some? then Some(Query(key, true, true, None))
    else None
  }

  predicate Eligible(c: Conn, key: Key, scan: bool, fallback: bool) {
    (c.key == key || (scan && RedirectEquals(c.key, c.verdict, key))) && (Ended(c) ==> fallback)
  }

  function Rank(c: Conn, key: Key): nat {
    (if Ended(c) then 2 else 0) + (if c.key == key then 0 else 1)
  }

  lemma {:induction false} FirstIndex(l: seq<Conn>, q: Query) returns (i: nat)
    requires First(l, q).Some?
    ensures i < |l| && First(l, q) == Some(l[i]) && Hits(q, l[i])
    ensures forall j :: 0 <= j < i ==> !Hits(q, l[j])
  {
    if Hits(q, l[0]) {
      i := 0;
    } else {
      var k := FirstIndex(l[1..], q);
      i := k + 1;
      assert forall j :: 0 < j < |l| ==> l[j] == l[1..][j - 1];
    }
  }

  /**
   A lookup returns the best-ranked entry of the whole list, the earliest among equals, and
   misses only when nothing is eligible.
   */
  lemma WinnerIsBest(l: seq<Conn>, key: Key, scan: bool, fallback: bool) returns (i: nat)
    ensures Winner(l, key, scan, fallback).None? <==> forall c :: c in l ==> !Eligible(c, key, scan, fallback)
    ensures Winner(l, key, scan, fallback).Some? ==>
              && i < |l| && Eligible(l[i], key, scan, fallback)
              && First(l, Winner(l, key, scan, fallback).value) == Some(l[i])
              && (forall j :: 0 <= j < |l| && Eligible(l[j], key, scan, fallback) ==>
                    Rank(l[i], key) < Rank(l[j], key) || (Rank(l[i], key) == Rank(l[j], key) && i <= j))
  {
    i := 0;
    if Winner(l, key, scan, fallback).Some? {
      i := FirstIndex(l, Winner(l, key, scan, fallback).value);
      assert l[i] in l;
      assert Eligible(l[i], key, scan, fallback);
      forall j | 0 <= j < |l| && Eligible(l[j], key, scan, fallback)
        ensures Rank(l[i], key) < Rank(l[j], key) || (Rank(l[i], key) == Rank(l[j], key) && i <= j)
      {
        assert l[j] in l;
      }
    } else {
      assert forall c :: c in l ==> !Hits(Query(key, false, false, None), c);
    }
  }

  /** A key that can be the redirect alias of some connection. */
  predicate AliasKey(key: Key) {
    || (key.remotePort == PM_DNS_PORT && IsLoopback(key.remoteAddress))
    || (key.remotePort == PM_SPN_PORT && key.localAddress == key.remoteAddress)
    || (key.remotePort == PM_SPLIT_TUN_PORT && key.localAddress == key.remoteAddress)
  }

  /**
   Skipping the redirect scan loses no match, on any cache, exactly unless the setting turns
   it off for a possible alias.
   */
  lemma ScanSkipLossless(key: Key, ignoreSpecialPorts: bool, fallback: bool)
    requires SameFamily(key)
    ensures (forall l :: Winner(l, key, IsRedirectPort(key.remotePort, ignoreSpecialPorts), fallback)
                         == Winner(l, key, true, fallback))
            <==> !(ignoreSpecialPorts && AliasKey(key))
  {
    if ignoreSpecialPorts && AliasKey(key) {
      var verdict := if key.remotePort == PM_DNS_PORT then RedirectNameServer
                     else if key.remotePort == PM_SPN_PORT then RedirectTunnel else RedirectSplitTunnel;
      var other := key.(remotePort := 0);
      var c := Conn(other, verdict, 0, 0, 1, 1, 0, Outbound, true, true);
      assert RedirectEquals(other, verdict, key);
      assert First([c], Query(key, true, false, None)) == Some(c);
      assert Winner([c], key, false, fallback).None?;
      assert Winner([c], key, true, fallback) == Some(Query(key, true, false, None));
    }
  }

  // ---- changing a connection ---------------------------------------------------------------

  datatype Edit =
    | Refresh(now: nat)
    | SetVerdict(verdict: Verdict, now: nat)
    | Attribute(process: nat, thread: nat, native: bool)
    | MarkNative
    | EndAt(now: nat)
    | Untouched

  /** Only live idle-expirable entries without a native lifetime are kept alive by activity. */
  function Refreshed(c: Conn, now: nat): Conn {
    if !Ended(c) && !c.native && c.idle then c.(accessed := now) else c
  }

  /** PID 0 says nothing, PID 4 fills only an unknown owner, any other PID replaces what is stored. */
  function Merged(c: Conn, process: nat, thread: nat): Conn {
    if process != 0 && (c.process == 0 || process != 4)
    then c.(process := process, thread := if c.process != process || thread != 0 then thread else c.thread)
    else c
  }

  function Apply(e: Edit, c: Conn): Conn {
    match e
    case Refresh(now) => Refreshed(c, now)
    case SetVerdict(verdict, now) => Refreshed(c, now).(verdict := verdict)
    case Attribute(process, thread, native) =>
      var m := Merged(c, process, thread);
      if native then m.(native := true) else m
    case MarkNative => c.(native := true)
    case EndAt(now) => c.(endTime := now)
    case Untouched => c
  }

  /** A known owner is never forgotten or replaced by the System process. */
  lemma AttributionKept(c: Conn, process: nat, thread: nat)
    ensures c.process != 0 ==> Merged(c, process, thread).process != 0
    ensures c.process !in {0, 4} ==> Merged(c, process, thread).process != 4
    ensures process !in {0, 4} ==> Merged(c, process, thread).process == process
    ensures Merged(c, process, thread).process == c.process && thread == 0 ==> Merged(c, process, thread) == c
  {
  }

  function EditFirst(l: seq<Conn>, q: Query, e: Edit): seq<Conn> {
    if l == [] then []
    else if Hits(q, l[0]) then [Apply(e, l[0])] + l[1..]
    else [l[0]] + EditFirst(l[1..], q, e)
  }

  /** Which live connections an end path selects: those of a local endpoint, or those idle for too long. */
  datatype Selection =
    | OnEndpoint(address: Option<Address>, process: Option<nat>, untrackedOnly: bool)
    | Inactive(cutoff: nat)

  predicate Selects(s: Selection, c: Conn) {
    !Ended(c) &&
    match s
    case OnEndpoint(address, process, untrackedOnly) =>
      && (address.Some? ==> c.key.localAddress == address.value)
      && (process.Some? ==> c.process == 0 || c.process == process.value)
      && (untrackedOnly ==> !c.native)
    case Inactive(cutoff) => !c.native && c.idle && c.accessed < cutoff
  }

  function EndIf(c: Conn, s: Selection, now: nat): Conn {
    if Selects(s, c) then Apply(EndAt(now), c) else c
  }

  function EndAll(l: seq<Conn>, s: Selection, now: nat): seq<Conn> {
    if l == [] then [] else [EndIf(l[0], s, now)] + EndAll(l[1..], s, now)
  }

  /** Copies of what an end path ended, in list order. */
  function EndedCopies(l: seq<Conn>, s: Selection, now: nat): seq<Conn> {
    if l == [] then []
    else (if Selects(s, l[0]) then [Apply(EndAt(now), l[0])] else []) + EndedCopies(l[1..], s, now)
  }

  predicate Expired(c: Conn, cutoff: nat) {
    Ended(c) && c.endTime < cutoff
  }

  /** Milliseconds that idle fallback entries and ended history are kept. */
  const GRACE := 60_000

  /** One minute ago, or the beginning of time. */
  function Cutoff(now: nat): nat {
    if now >= GRACE then now - GRACE else 0
  }

  function Retained(l: seq<Conn>, cutoff: nat): seq<Conn> {
    if l == [] then [] else (if Expired(l[0], cutoff) then [] else [l[0]]) + Retained(l[1..], cutoff)
  }

  /** A new connection goes behind every entry whose endpoint is not greater. */
  function Insert(l: seq<Conn>, c: Conn): seq<Conn> {
    if l == [] || Below(EndpointOf(c.key), EndpointOf(l[0].key)) then [c] + l else [l[0]] + Insert(l[1..], c)
  }

  // ---- the operations on the whole table ------------------------------------------------------

  type Group = (nat, nat)

  type Table = map<Group, seq<Conn>>

  function GroupOf(t: Table, g: Group): seq<Conn> {
    if g in t then t[g] else []
  }

  function Live(key: Key, instance: Option<nat>): Query {
    Query(key, false, false, instance)
  }

  function EditIn(t: Table, key: Key, q: Query, e: Edit): Table {
    if Small(key) in t then t[Small(key) := EditFirst(t[Small(key)], q, e)] else t
  }

  /** Register: the live entry of the exact tuple is updated, otherwise the candidate is inserted. */
  function DoInsert(t: Table, c: Conn, merge: Edit): (Table, Result<nat, nat>) {
    match First(GroupOf(t, Small(c.key)), Live(c.key, None))
    case Some(existing) => (EditIn(t, c.key, Live(c.key, None), merge), Err(existing.instance))
    case None => (t[Small(c.key) := Insert(GroupOf(t, Small(c.key)), c)], Ok(c.instance))
  }

  function DoRead(t: Table, key: Key, scan: bool, fallback: bool, now: nat): (Table, Option<Conn>) {
    var l := GroupOf(t, Small(key));
    match Winner(l, key, scan, fallback)
    case None => (t, None)
    case Some(q) => (EditIn(t, key, q, Refresh(now)), Some(Apply(Refresh(now), First(l, q).value)))
  }

  /** The query by which one exact instance is found: its own tuple, else its redirect alias. */
  function InstanceQuery(l: seq<Conn>, key: Key, instance: nat, scan: bool): Option<Query> {
    if instance == 0 then None
    else if First(l, Live(key, Some(instance))).Some? then Some(Live(key, Some(instance)))
    else if scan && First(l, Query(key, true, false, Some(instance))).Some?
    then Some(Query(key, true, false, Some(instance)))
    else None
  }

  function LookUpInstance(t: Table, key: Key, instance: nat, scan: bool): Option<Conn> {
    var l := GroupOf(t, Small(key));
    match InstanceQuery(l, key, instance, scan)
    case None => None
    case Some(q) => First(l, q)
  }

  function DoEditInstance(t: Table, key: Key, instance: nat, scan: bool, e: Edit): (Table, Option<Conn>) {
    var l := GroupOf(t, Small(key));
    match InstanceQuery(l, key, instance, scan)
    case None => (t, None)
    case Some(q) => (EditIn(t, key, q, e), Some(Apply(e, First(l, q).value)))
  }

  /** The live entry of an exact tuple, or only that instance of it; never through an alias. */
  function DoEditExact(t: Table, key: Key, instance: Option<nat>, e: Edit): (Table, Option<Conn>) {
    match First(GroupOf(t, Small(key)), Live(key, instance))
    case None => (t, None)
    case Some(c) => (EditIn(t, key, Live(key, instance), e), Some(Apply(e, c)))
  }

  /** Ends a list of exact generations one after the other. */
  function DoEndInstances(t: Table, instances: seq<(Key, nat)>, now: nat): (Table, seq<Conn>) {
    if instances == [] then (t, []) else
      var (u, ended) := DoEndInstances(t, instances[..|instances| - 1], now);
      var (key, instance) := instances[|instances| - 1];
      var (v, c) := DoEditExact(u, key, Some(instance), EndAt(now));
      (v, ended + if c.Some? then [c.value] else [])
  }

  function DoEndGroup(t: Table, g: Group, s: Selection, now: nat): (Table, Option<seq<Conn>>) {
    if g in t then (t[g := EndAll(t[g], s, now)], Some(EndedCopies(t[g], s, now))) else (t, None)
  }

  function DoEndInactive(t: Table, cutoff: nat, now: nat): Table {
    map g | g in t :: EndAll(t[g], Inactive(cutoff), now)
  }

  function DoClean(t: Table, cutoff: nat): Table {
    map g | g in t && Retained(t[g], cutoff) != [] :: Retained(t[g], cutoff)
  }
}
