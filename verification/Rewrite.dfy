/**
 Rewriting the addresses and one port of a TCP or UDP packet in place, with its transport
 checksum.
 */
module Rewrite {
  import opened Net
  import opened Ipv6Walk
  import opened Inspection
  import opened Checksum

  type Word16 = n: nat | n < 65536

  datatype RewriteError =
    | InvalidPacket | UnresolvedChain | FragmentedPacket
    | ActiveRoutingHeader | UnsupportedProtocol | InvalidTransportHeader

  datatype PortRewrite = SourcePort(port: Word16) | DestinationPort(port: Word16)

  /** Where the transport header and the declared packet end are. */
  datatype Context = Context(protocol: nat, offset: nat, total: nat)

  function Replace(d: seq<Byte>, at: nat, bytes: seq<Byte>): (r: seq<Byte>)
    requires at + |bytes| <= |d|
    ensures |r| == |d| && r[at..at + |bytes|] == bytes
    ensures forall i :: 0 <= i < |d| && !(at <= i < at + |bytes|) ==> r[i] == d[i]
  {
    d[..at] + bytes + d[at + |bytes|..]
  }

  function Bytes(v: Word16): seq<Byte> {
    [Hi(v), Lo(v)]
  }

  // ---- validation ---------------------------------------------------------------------------------

  /** A complete IPv6 packet whose chain leads to an unfragmented transport header of known destination. */
  function ContextOf(d: seq<Byte>): Result<Context, RewriteError> {
    if |d| < BASE6 || DeclaredLength(d, true) > |d| then Err(InvalidPacket)
    else if Version(d) != 6 then Err(InvalidPacket)
    else if U16(d, 4) == 0 && |d| > BASE6 then Err(InvalidPacket)
    else
      var total := DeclaredLength(d, true);
      var h := Headers6(d[..total], false, true);
      if !h.resolved || h.offset > total then Err(UnresolvedChain)
      else if h.fragment then Err(FragmentedPacket)
      else if h.activeRouting then Err(ActiveRoutingHeader)
      else Ok(Context(h.protocol, h.offset, total))
  }

  predicate TransportOk(protocol: nat, t: seq<Byte>) {
    if protocol == UDP then |t| >= 8 && 8 <= U16(t, 4) <= |t|
    else |t| >= 20 && 20 <= t[12] as int / 16 * 4 <= |t|
  }

  function Validate(d: seq<Byte>, c: Context): Result<(), RewriteError>
    requires c.offset <= c.total <= |d|
  {
    if !HasPorts(c.protocol) then Err(UnsupportedProtocol)
    else if TransportOk(c.protocol, d[c.offset..c.total]) then Ok(())
    else Err(InvalidTransportHeader)
  }

  /** Why a packet cannot be rewritten, if it cannot. */
  function Verdict6(d: seq<Byte>): Result<Context, RewriteError> {
    var c := ContextOf(d);
    if c.Err? then c else
      var v := Validate(d, c.value);
      if v.Err? then Err(v.error) else c
  }

  /** A transport header the checksum routine can work on. */
  predicate ContextOk(d: seq<Byte>, c: Context) {
    c.offset <= c.total <= |d| && HasPorts(c.protocol) && TransportOk(c.protocol, d[c.offset..c.total])
  }

  lemma VerdictContext(d: seq<Byte>)
    requires Verdict6(d).Ok?
    ensures |d| >= BASE6 && ContextOk(d, Verdict6(d).value) && BASE6 <= Verdict6(d).value.offset
    ensures Verdict6(d).value.total <= 65575
  {
    OffsetFits(d[..DeclaredLength(d, true)], false, true);
  }

  /** A chain of at most eight headers, unfragmented and with no segment left, to a whole TCP or UDP header. */
  ghost predicate LeadsTo(w: seq<Byte>, lengths: seq<nat>, upper: nat, end: nat) {
    && ChainOf(w, lengths, upper, end) && end <= |w|
    && !Fragmented(w, w[6], BASE6, lengths) && !RoutedOn(w, w[6], BASE6, lengths)
    && (upper == 6 || upper == 17) && TransportOk(upper, w[end..])
  }

  /** What the walk finds at the end of such a chain. */
  predicate Found(w: seq<Byte>, h: Headers) {
    && h.resolved && !h.fragment && !h.activeRouting && h.offset <= |w|
    && HasPorts(h.protocol) && TransportOk(h.protocol, w[h.offset..])
  }

  lemma LeadsToFound(w: seq<Byte>, lengths: seq<nat>, upper: nat, end: nat)
    requires LeadsTo(w, lengths, upper, end)
    ensures var h := Headers6(w, false, true); Found(w, h) && h.protocol == upper && h.offset == end
  {
    hide TransportOk, Laid, Fragmented, RoutedOn;
    WalkIsLayout(w, true);
  }

  lemma FoundLeadsTo(w: seq<Byte>)
    requires |w| >= BASE6 && Found(w, Headers6(w, false, true))
    ensures exists lengths, upper, end :: LeadsTo(w, lengths, upper, end)
  {
    hide TransportOk, Laid, Fragmented, RoutedOn;
    WalkIsLayout(w, true);
    var lengths, upper, end :| ChainOf(w, lengths, upper, end);
    assert LeadsTo(w, lengths, upper, end);
  }

  lemma VerdictFound(d: seq<Byte>)
    ensures Verdict6(d).Ok? <==>
              && |d| >= 40 && d[0] as int / 16 == 6 && 40 + U16(d, 4) <= |d| && (U16(d, 4) == 0 ==> |d| == 40)
              && var w := d[..40 + U16(d, 4)]; Found(w, Headers6(w, false, true))
    ensures Verdict6(d).Ok? ==>
              var w := d[..40 + U16(d, 4)];
              var h := Headers6(w, false, true);
              Verdict6(d).value == Context(h.protocol, h.offset, |w|)
  {
    hide TransportOk, Headers6;
    if |d| >= 40 && 40 + U16(d, 4) <= |d| {
      var w := d[..40 + U16(d, 4)];
      var h := Headers6(w, false, true);
      if h.offset <= |w| {
        assert d[h.offset..|w|] == w[h.offset..];
      }
    }
  }

  /** Exactly these IPv6 packets can be rewritten, with this layout. */
  lemma RewritableExactly(d: seq<Byte>)
    ensures Verdict6(d).Ok? <==>
              && |d| >= 40 && d[0] as int / 16 == 6 && 40 + U16(d, 4) <= |d| && (U16(d, 4) == 0 ==> |d| == 40)
              && var w := d[..40 + U16(d, 4)]; exists lengths, upper, end :: LeadsTo(w, lengths, upper, end)
    ensures Verdict6(d).Ok? ==>
              var w := d[..40 + U16(d, 4)];
              forall lengths, upper, end :: LeadsTo(w, lengths, upper, end) ==>
                                              Verdict6(d).value == Context(upper, end, |w|)
  {
    hide Verdict6, LeadsTo, Found, Headers6, U16;
    VerdictFound(d);
    if |d| >= 40 && 40 + U16(d, 4) <= |d| {
      var w := d[..40 + U16(d, 4)];
      if Found(w, Headers6(w, false, true)) {
        FoundLeadsTo(w);
      }
      forall lengths, upper, end | LeadsTo(w, lengths, upper, end)
        ensures Found(w, Headers6(w, false, true))
        ensures Headers6(w, false, true).protocol == upper && Headers6(w, false, true).offset == end
      {
        LeadsToFound(w, lengths, upper, end);
      }
    }
  }

  // ---- the checksum field ---------------------------------------------------------------------------

  /** The upper-layer length: the UDP length field, or everything behind the IP headers. */
  function Upper(d: seq<Byte>, c: Context): nat
    requires ContextOk(d, c)
  {
    if c.protocol == UDP then U16(d, c.offset + 4) else c.total - c.offset
  }

  function ChecksumAt(c: Context): nat {
    c.offset + if c.protocol == UDP then 6 else 16
  }

  function PortAt(c: Context, port: PortRewrite): nat {
    c.offset + if port.SourcePort? then 0 else 2
  }

  lemma UpperInside(d: seq<Byte>, c: Context)
    requires ContextOk(d, c)
    ensures c.offset + Upper(d, c) <= c.total && ChecksumAt(c) + 2 <= c.offset + Upper(d, c)
  {
  }

  /** The folded sum that a receiver expects to be all ones. */
  function TransportTotal(d: seq<Byte>, c: Context, source: seq<Byte>, destination: seq<Byte>): nat
    requires ContextOk(d, c)
  {
    UpperInside(d, c);
    Total(Pseudo(source, destination, c.protocol, Upper(d, c)), d[c.offset..c.offset + Upper(d, c)])
  }

  /** The bytes outside the port, checksum and length-free parts decide whether a context fits. */
  lemma ContextKept(d: seq<Byte>, e: seq<Byte>, c: Context)
    requires ContextOk(d, c) && |e| == |d|
    requires if c.protocol == UDP then d[c.offset + 4] == e[c.offset + 4] && d[c.offset + 5] == e[c.offset + 5]
             else d[c.offset + 12] == e[c.offset + 12]
    ensures ContextOk(e, c) && Upper(e, c) == Upper(d, c)
  {
  }

  /** What goes into a zeroed checksum field; zero would mean "no checksum" in UDP. */
  function StoredWord(zeroed: seq<Byte>, c: Context, source: seq<Byte>, destination: seq<Byte>): Word16
    requires ContextOk(zeroed, c)
  {
    var sum := 65535 - TransportTotal(zeroed, c, source, destination);
    if c.protocol == UDP && sum == 0 then 65535 else sum
  }

  function Filled(d: seq<Byte>, c: Context, source: seq<Byte>, destination: seq<Byte>): seq<Byte>
    requires ContextOk(d, c)
  {
    UpperInside(d, c);
    var zeroed := Replace(d, ChecksumAt(c), [0, 0]);
    ContextKept(d, zeroed, c);
    Replace(zeroed, ChecksumAt(c), Bytes(StoredWord(zeroed, c, source, destination)))
  }

  lemma FilledTouches(d: seq<Byte>, c: Context, source: seq<Byte>, destination: seq<Byte>)
    requires ContextOk(d, c)
    ensures var e := Filled(d, c, source, destination);
            && |e| == |d| && ContextOk(e, c) && Upper(e, c) == Upper(d, c)
            && (forall i :: 0 <= i < |d| && !(ChecksumAt(c) <= i < ChecksumAt(c) + 2) ==> e[i] == d[i])
  {
    UpperInside(d, c);
    var e := Filled(d, c, source, destination);
    forall i | 0 <= i < |d| && !(ChecksumAt(c) <= i < ChecksumAt(c) + 2) ensures e[i] == d[i] {
      assert Replace(d, ChecksumAt(c), [0, 0])[i] == d[i];
    }
    ContextKept(d, e, c);
  }

  lemma SetWord(d: seq<Byte>, from: nat, to: nat, at: nat, v: Word16)
    requires from <= at && at + 2 <= to <= |d|
    ensures Replace(d, at, Bytes(v))[from..to] == d[from..to][at - from := Hi(v)][at - from + 1 := Lo(v)]
  {
    var e := Replace(d, at, Bytes(v));
    assert e[at..at + 2] == Bytes(v);
    assert e[at] == Hi(v) && e[at + 1] == Lo(v);
  }

  /** What a filled field holds: the complement of the sum, or all ones where zero would mean none. */
  lemma FilledWord(d: seq<Byte>, c: Context, source: seq<Byte>, destination: seq<Byte>) returns (stored: Word16)
    requires ContextOk(d, c)
    ensures ChecksumAt(c) + 2 <= |d|
    ensures var zeroed := Replace(d, ChecksumAt(c), [0, 0]);
            && ContextOk(zeroed, c) && Upper(zeroed, c) == Upper(d, c)
            && Filled(d, c, source, destination) == Replace(zeroed, ChecksumAt(c), Bytes(stored))
            && var total := TransportTotal(zeroed, c, source, destination);
               stored == 65535 - total || (total == 65535 && stored == 65535)
    ensures ContextOk(Filled(d, c, source, destination), c)
    ensures Upper(Filled(d, c, source, destination), c) == Upper(d, c)
  {
    UpperInside(d, c);
    FilledTouches(d, c, source, destination);
    var zeroed := Replace(d, ChecksumAt(c), [0, 0]);
    ContextKept(d, zeroed, c);
    stored := StoredWord(zeroed, c, source, destination);
  }

  /** A filled UDP checksum is never zero, which would mean that there is none. */
  lemma FilledNonzero(d: seq<Byte>, c: Context, source: seq<Byte>, destination: seq<Byte>)
    requires ContextOk(d, c) && c.protocol == UDP
    ensures var e := Filled(d, c, source, destination); c.offset + 8 <= |e| && U16(e, c.offset + 6) != 0
  {
    hide TransportTotal;
    UpperInside(d, c);
    var zeroed := Replace(d, ChecksumAt(c), [0, 0]);
    ContextKept(d, zeroed, c);
    var stored := StoredWord(zeroed, c, source, destination);
    assert stored != 0;
    WordWritten(zeroed, ChecksumAt(c), stored);
  }

  lemma StoredIsRight(pseudo: nat, zeroed: seq<Byte>, from: nat, to: nat, at: nat, stored: Word16)
    requires from <= at && at + 2 <= to <= |zeroed| && (at - from) % 2 == 0 && to - from <= 65536
    requires 0 < pseudo <= 65535 && zeroed[at..at + 2] == [0, 0]
    requires var total := Total(pseudo, zeroed[from..to]);
             stored == 65535 - total || (total == 65535 && stored == 65535)
    ensures Total(pseudo, Replace(zeroed, at, Bytes(stored))[from..to]) == 65535
  {
    assert zeroed[at] == zeroed[at..at + 2][0] && zeroed[at + 1] == zeroed[at..at + 2][1];
    FilledVerifies(pseudo, zeroed[from..to], at - from, stored);
    SetWord(zeroed, from, to, at, stored);
  }

  /** The filled checksum verifies at the receiver, whatever the packet held before. */
  lemma FilledIsRight(d: seq<Byte>, c: Context, source: seq<Byte>, destination: seq<Byte>)
    requires ContextOk(d, c) && |source| <= 16 && |destination| <= 16 && c.total <= c.offset + 65535
    ensures ContextOk(Filled(d, c, source, destination), c)
    ensures TransportTotal(Filled(d, c, source, destination), c, source, destination) == 65535
  {
    hide Pseudo, Total, Replace, Filled;
    var at, upper := ChecksumAt(c), Upper(d, c);
    var stored := FilledWord(d, c, source, destination);
    var zeroed := Replace(d, at, [0, 0]);
    UpperInside(d, c);
    PseudoNonzero(source, destination, c.protocol, upper);
    StoredIsRight(Pseudo(source, destination, c.protocol, upper), zeroed, c.offset, c.offset + upper, at, stored);
  }

  // ---- the rewrite -------------------------------------------------------------------------------------

  function Addressed6(d: seq<Byte>, source: Octets16, destination: Octets16): seq<Byte>
    requires |d| >= BASE6
  {
    Replace(Replace(d, 8, source), 24, destination)
  }

  lemma AddressedTouches(d: seq<Byte>, source: Octets16, destination: Octets16)
    requires |d| >= BASE6
    ensures var e := Addressed6(d, source, destination);
            && |e| == |d| && e[8..24] == source && e[24..40] == destination
            && (forall i :: 0 <= i < |d| && !(8 <= i < 40) ==> e[i] == d[i])
  {
    var a := Replace(d, 8, source);
    assert Replace(a, 24, destination)[8..24] == a[8..24];
  }

  function Rewritten6(d: seq<Byte>, c: Context, source: Octets16, destination: Octets16, port: PortRewrite): seq<Byte>
    requires |d| >= BASE6 && ContextOk(d, c) && c.offset >= BASE6
  {
    AddressedTouches(d, source, destination);
    UpperInside(d, c);
    var e := Replace(Addressed6(d, source, destination), PortAt(c, port), Bytes(port.port));
    ContextKept(d, e, c);
    Filled(e, c, source, destination)
  }

  /** What a rewrite may change: the two addresses, one port and the transport checksum. */
  predicate Touched(c: Context, port: PortRewrite, i: nat) {
    8 <= i < 40 || PortAt(c, port) <= i < PortAt(c, port) + 2 || ChecksumAt(c) <= i < ChecksumAt(c) + 2
  }

  lemma SameSlice(a: seq<Byte>, b: seq<Byte>, i: nat, j: nat)
    requires i <= j <= |a| == |b| && forall k :: i <= k < j ==> a[k] == b[k]
    ensures a[i..j] == b[i..j]
  {
  }

  lemma WordWritten(d: seq<Byte>, at: nat, v: Word16)
    requires at + 2 <= |d|
    ensures U16(Replace(d, at, Bytes(v)), at) == v
  {
    var e := Replace(d, at, Bytes(v));
    assert e[at] == e[at..at + 2][0] && e[at + 1] == e[at..at + 2][1];
  }

  /** The packet before its checksum is filled in. */
  lemma PortedTouches(d: seq<Byte>, c: Context, source: Octets16, destination: Octets16, port: PortRewrite)
    requires |d| >= BASE6 && ContextOk(d, c) && c.offset >= BASE6
    ensures PortAt(c, port) + 2 <= |d|
    ensures var e := Replace(Addressed6(d, source, destination), PortAt(c, port), Bytes(port.port));
            && ContextOk(e, c) && e[8..24] == source && e[24..40] == destination
            && U16(e, PortAt(c, port)) == port.port
            && (forall i :: 0 <= i < |d| && !(8 <= i < 40) && !(PortAt(c, port) <= i < PortAt(c, port) + 2) ==>
                  e[i] == d[i])
  {
    AddressedTouches(d, source, destination);
    UpperInside(d, c);
    var a := Addressed6(d, source, destination);
    var e := Replace(a, PortAt(c, port), Bytes(port.port));
    WordWritten(a, PortAt(c, port), port.port);
    ContextKept(d, e, c);
    SameSlice(e, a, 8, 24);
    SameSlice(e, a, 24, 40);
  }

  /** Extension headers, the other port, every length and the payload stay as they were. */
  lemma RewriteFrame(d: seq<Byte>, c: Context, source: Octets16, destination: Octets16, port: PortRewrite)
    requires |d| >= BASE6 && ContextOk(d, c) && c.offset >= BASE6
    ensures var e := Rewritten6(d, c, source, destination, port);
            && |e| == |d| && e[8..24] == source && e[24..40] == destination
            && U16(e, PortAt(c, port)) == port.port
            && (forall i :: 0 <= i < |d| && !Touched(c, port, i) ==> e[i] == d[i])
  {
    PortedTouches(d, c, source, destination, port);
    var b := Replace(Addressed6(d, source, destination), PortAt(c, port), Bytes(port.port));
    FilledTouches(b, c, source, destination);
    var e := Filled(b, c, source, destination);
    assert e == Rewritten6(d, c, source, destination, port);
    SameSlice(e, b, 8, 24);
    SameSlice(e, b, 24, 40);
  }

  /** The checksum of a rewritten packet verifies over the upper-layer length (section 8.1 of RFC 8200). */
  lemma RewriteVerifies(d: seq<Byte>, c: Context, source: Octets16, destination: Octets16, port: PortRewrite)
    requires Verdict6(d) == Ok(c)
    ensures |d| >= BASE6 && ContextOk(d, c) && c.offset >= BASE6
    ensures var e := Rewritten6(d, c, source, destination, port);
            && ContextOk(e, c)
            && TransportTotal(e, c, e[8..24], e[24..40]) == 65535
  {
    VerdictContext(d);
    RewriteFrame(d, c, source, destination, port);
    PortedTouches(d, c, source, destination, port);
    var ported := Replace(Addressed6(d, source, destination), PortAt(c, port), Bytes(port.port));
    FilledIsRight(ported, c, source, destination);
  }

  // ---- the chain does not depend on what is rewritten -----------------------------------------------------

  lemma {:induction false} ChainLocal(d: seq<Byte>, e: seq<Byte>, h: Headers, left: nat, stop: bool, inspect: bool)
    requires |d| == |e| && h.offset <= |d| && Chain(d, h, left, stop, inspect).resolved && !h.resolved
    requires forall i :: h.offset <= i < Chain(d, h, left, stop, inspect).offset ==> i < |d| && d[i] == e[i]
    ensures Chain(e, h, left, stop, inspect) == Chain(d, h, left, stop, inspect)
    decreases left
  {
    if IsExtension(h.protocol) && left > 0 && ExtensionLength(d, h.protocol, h.offset).Some? && !StopsHere(d, h, stop) {
      LengthBound(d, h.protocol, h.offset);
      var next := Follow(d, h, inspect);
      ChainBounds(d, next, left - 1, stop, inspect);
      assert forall i :: h.offset <= i < next.offset ==> d[i] == e[i];
      assert ExtensionLength(e, h.protocol, h.offset) == ExtensionLength(d, h.protocol, h.offset);
      assert Follow(e, h, inspect) == next;
      ChainLocal(d, e, next, left - 1, stop, inspect);
    }
  }

  /** Packets that agree on the base header's fixed fields and the extension headers walk alike. */
  lemma WalkLocal(d: seq<Byte>, e: seq<Byte>, stop: bool, inspect: bool)
    requires |d| == |e| && |d| >= BASE6 && d[6] == e[6] && Headers6(d, stop, inspect).resolved
    requires forall i :: BASE6 <= i < Headers6(d, stop, inspect).offset ==> i < |d| && d[i] == e[i]
    ensures Headers6(e, stop, inspect) == Headers6(d, stop, inspect)
  {
    hide Chain;
    OffsetFits(d, stop, inspect);
    assert Base(e) == Base(d);
    ChainLocal(d, e, Base(d), MAX_EXTENSIONS, stop, inspect);
  }

  lemma SameFixedFields(d: seq<Byte>, e: seq<Byte>)
    requires |d| == |e| && |d| >= BASE6 && forall i :: 0 <= i < 8 ==> e[i] == d[i]
    ensures U16(e, 4) == U16(d, 4) && DeclaredLength(e, true) == DeclaredLength(d, true) && Version(e) == Version(d)
  {
  }

  lemma SameWalk(d: seq<Byte>, e: seq<Byte>, c: Context)
    requires ContextOf(d) == Ok(c) && |e| == |d|
    requires forall i :: 0 <= i < |d| && (i < 8 || BASE6 <= i < c.offset) ==> e[i] == d[i]
    ensures c.total <= |d| && Headers6(e[..c.total], false, true) == Headers6(d[..c.total], false, true)
  {
    WalkLocal(d[..c.total], e[..c.total], false, true);
  }

  /** Nothing that decides the layout of an IPv6 packet is in the way of a rewrite. */
  lemma SameVerdict(d: seq<Byte>, e: seq<Byte>, c: Context)
    requires Verdict6(d) == Ok(c) && |e| == |d| && BASE6 <= c.offset && ContextOk(e, c)
    requires forall i :: 0 <= i < |d| && (i < 8 || BASE6 <= i < c.offset) ==> e[i] == d[i]
    ensures Verdict6(e) == Ok(c)
  {
    SameFixedFields(d, e);
    SameWalk(d, e, c);
  }

  /** A rewritten packet can be rewritten again, with the same layout. */
  lemma RewriteKeepsContext(d: seq<Byte>, c: Context, source: Octets16, destination: Octets16, port: PortRewrite)
    requires Verdict6(d) == Ok(c)
    ensures |d| >= BASE6 && ContextOk(d, c) && c.offset >= BASE6
    ensures Verdict6(Rewritten6(d, c, source, destination, port)) == Ok(c)
  {
    VerdictContext(d);
    RewriteFrame(d, c, source, destination, port);
    RewriteVerifies(d, c, source, destination, port);
    SameVerdict(d, Rewritten6(d, c, source, destination, port), c);
  }

  // ---- in place -----------------------------------------------------------------------------------------------

  method Store(packet: array<Byte>, at: nat, bytes: seq<Byte>)
    requires at + |bytes| <= packet.Length
    modifies packet
    ensures packet[..] == Replace(old(packet[..]), at, bytes)
  {
    forall i | 0 <= i < |bytes| {
      packet[at + i] := bytes[i];
    }
  }

  method FillChecksum(packet: array<Byte>, c: Context, source: seq<Byte>, destination: seq<Byte>)
    requires ContextOk(packet[..], c)
    modifies packet
    ensures packet[..] == Filled(old(packet[..]), c, source, destination)
  {
    UpperInside(packet[..], c);
    ContextKept(packet[..], Replace(packet[..], ChecksumAt(c), [0, 0]), c);
    Store(packet, ChecksumAt(c), [0, 0]);
    Store(packet, ChecksumAt(c), Bytes(StoredWord(packet[..], c, source, destination)));
  }

  /** All or nothing: every check comes before the first change. */
  method RewriteIpv6(packet: array<Byte>, source: Octets16, destination: Octets16, port: PortRewrite)
    returns (r: Result<(), RewriteError>)
    modifies packet
    ensures r.Err? ==> packet[..] == old(packet[..]) && Verdict6(old(packet[..])) == Err(r.error)
    ensures r.Ok? ==> Verdict6(old(packet[..])).Ok? && Verdict6(packet[..]) == Verdict6(old(packet[..]))
    ensures r.Ok? ==>
              var c := Verdict6(old(packet[..])).value;
              && packet.Length >= BASE6 && ContextOk(old(packet[..]), c) && c.offset >= BASE6
              && packet[..] == Rewritten6(old(packet[..]), c, source, destination, port)
              && (forall i :: 0 <= i < packet.Length && !Touched(c, port, i) ==> packet[i] == old(packet[i]))
  {
    var context := ContextOf(packet[..]);
    if context.Err? {
      return Err(context.error);
    }
    var c := context.value;
    var valid := Validate(packet[..], c);
    if valid.Err? {
      return Err(valid.error);
    }
    ghost var d := packet[..];
    VerdictContext(d);
    RewriteFrame(d, c, source, destination, port);
    RewriteKeepsContext(d, c, source, destination, port);
    PortedTouches(d, c, source, destination, port);
    Store(packet, 8, source);
    Store(packet, 24, destination);
    Store(packet, PortAt(c, port), Bytes(port.port));
    FillChecksum(packet, c, source, destination);
    return Ok(());
  }
}
