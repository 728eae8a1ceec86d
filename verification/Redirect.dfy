/**
 Redirecting packets to a local port and restoring the replies.
 */
module Redirect {
  import opened Net
  import opened Ipv6Walk
  import opened Inspection
  import opened Checksum
  import opened Rewrite
  import CT = ConnectionTable

  // ---- IPv4 --------------------------------------------------------------------------------------

  /** The library's check of an IPv4 packet; it does not require a complete header length. */
  predicate Checked4(d: seq<Byte>) {
    |d| >= BASE4 && HeaderLength4(d) <= U16(d, 2) <= |d|
  }

  function Context4(d: seq<Byte>): Context
    requires |d| >= BASE4
  {
    Context(d[9], HeaderLength4(d), U16(d, 2))
  }

  /** A complete header and a transport header the library accepts. */
  predicate Valid4(d: seq<Byte>) {
    Checked4(d) && HeaderLength4(d) >= BASE4 && ContextOk(d, Context4(d))
  }

  function Addressed4(d: seq<Byte>, source: Octets4, destination: Octets4): seq<Byte>
    requires |d| >= BASE4
  {
    Replace(Replace(d, 12, source), 16, destination)
  }

  function HeaderFilled(d: seq<Byte>, length: nat): seq<Byte>
    requires BASE4 <= |d| && length <= |d|
  {
    var zeroed := Replace(d, 10, [0, 0]);
    Replace(zeroed, 10, Bytes(65535 - Fold(Sum16(zeroed[..length]))))
  }

  function Rewritten4(d: seq<Byte>, source: Octets4, destination: Octets4, port: PortRewrite): seq<Byte>
    requires Checked4(d)
  {
    var c := Context4(d);
    var a := HeaderFilled(Addressed4(d, source, destination), c.offset);
    if ContextOk(a, c) then Ported(a, c, source, destination, port) else a
  }

  /** The transport part of the rewrite: one port and the checksum. */
  function Ported(a: seq<Byte>, c: Context, source: seq<Byte>, destination: seq<Byte>, port: PortRewrite): seq<Byte>
    requires ContextOk(a, c)
  {
    UpperInside(a, c);
    var e := Replace(a, PortAt(c, port), Bytes(port.port));
    ContextKept(a, e, c);
    Filled(e, c, source, destination)
  }

  // ---- what both families share ----------------------------------------------------------------------

  predicate Rewritable(d: seq<Byte>, ipv6: bool) {
    if ipv6 then Verdict6(d).Ok? else Valid4(d)
  }

  function LayoutOf(d: seq<Byte>, ipv6: bool): Context
    requires Rewritable(d, ipv6)
  {
    if ipv6 then Verdict6(d).value else Context4(d)
  }

  lemma LayoutOk(d: seq<Byte>, ipv6: bool)
    requires Rewritable(d, ipv6)
    ensures |d| >= BaseLength(ipv6) && ContextOk(d, LayoutOf(d, ipv6)) && LayoutOf(d, ipv6).offset >= BaseLength(ipv6)
    ensures PortAt(LayoutOf(d, ipv6), SourcePort(0)) + 4 <= LayoutOf(d, ipv6).total
  {
    if ipv6 { VerdictContext(d); }
  }

  /**
   The bytes a redirect may change: addresses and, for IPv4, the header checksum; one port;
   the transport checksum.
   */
  predicate MayChange(ipv6: bool, c: Context, port: PortRewrite, i: nat) {
    || (if ipv6 then 8 <= i < 40 else 10 <= i < 20)
    || PortAt(c, port) <= i < PortAt(c, port) + 2 || ChecksumAt(c) <= i < ChecksumAt(c) + 2
  }

  /** `e` is `d` with other addresses and one other port. */
  ghost predicate Rewrites(d: seq<Byte>, e: seq<Byte>, ipv6: bool, source: Address, destination: Address,
                           port: PortRewrite)
    requires Rewritable(d, ipv6)
  {
    LayoutOk(d, ipv6);
    var c := LayoutOf(d, ipv6);
    && |e| == |d|
    && Source(e, ipv6) == source && Destination(e, ipv6) == destination
    && U16(e, PortAt(c, port)) == port.port
    && (forall i :: 0 <= i < |d| && !MayChange(ipv6, c, port, i) ==> e[i] == d[i])
  }

  // ---- the inspector sees the layout that was rewritten ---------------------------------------------------

  lemma {:induction false} InspectIrrelevant(d: seq<Byte>, h: Headers, left: nat, stop: bool)
    ensures Plain(Chain(d, h, left, stop, true)) == Plain(Chain(d, h, left, stop, false))
    decreases left
  {
    if IsExtension(h.protocol) && left > 0 && ExtensionLength(d, h.protocol, h.offset).Some? && !StopsHere(d, h, stop) {
      var a, b := Follow(d, h, true), Follow(d, h, false);
      assert a == b.(activeRouting := a.activeRouting);
      InspectIrrelevant(d, a, left - 1, stop);
      RoutingIsSeparate(d, b, a.activeRouting, left - 1, stop, false);
    }
  }

  lemma Layout6IsHeader(d: seq<Byte>, permitFragments: bool)
    requires Verdict6(d).Ok?
    ensures var h := PureHeader(d, true, permitFragments);
            h.error.None? && h.protocol == Verdict6(d).value.protocol && h.offset == Verdict6(d).value.offset
    ensures IsExtension(d[6]) ==> Headers6(d, permitFragments, false).resolved
  {
    VerdictContext(d);
    var w := d[..Verdict6(d).value.total];
    InspectIrrelevant(w, Base(w), MAX_EXTENSIONS, false);
    ChainWithoutFragments(w, Base(w), MAX_EXTENSIONS, false);
    PrefixStable(w, d, permitFragments, false);
  }

  lemma HeaderOfLayout(d: seq<Byte>, ipv6: bool, permitFragments: bool)
    requires Rewritable(d, ipv6) && PureHeader(d, ipv6, permitFragments).error.None?
    ensures var h := PureHeader(d, ipv6, permitFragments);
            h.protocol == LayoutOf(d, ipv6).protocol && h.offset == LayoutOf(d, ipv6).offset
  {
    if ipv6 { Layout6IsHeader(d, permitFragments); }
  }

  lemma HeaderKept(d: seq<Byte>, e: seq<Byte>, ipv6: bool, source: Address, destination: Address, port: PortRewrite,
                   permitFragments: bool)
    requires Rewritable(d, ipv6) && PureHeader(d, ipv6, permitFragments).error.None?
    requires Rewrites(d, e, ipv6, source, destination, port)
    ensures PureHeader(e, ipv6, permitFragments) == PureHeader(d, ipv6, permitFragments)
  {
    LayoutOk(d, ipv6);
    HeaderOfLayout(d, ipv6, permitFragments);
    var c := LayoutOf(d, ipv6);
    if ipv6 {
      Layout6IsHeader(d, permitFragments);
      assert e[6] == d[6];
      if IsExtension(d[6]) {
        assert forall i :: BASE6 <= i < c.offset ==> e[i] == d[i];
        WalkLocal(d, e, permitFragments, false);
      }
    } else {
      assert e[0] == d[0] && e[6] == d[6] && e[7] == d[7] && e[9] == d[9];
    }
  }

  function NewPorts(d: seq<Byte>, c: Context, port: PortRewrite): (nat, nat)
    requires ContextOk(d, c)
  {
    if port.SourcePort? then (port.port, U16(d, c.offset + 2)) else (U16(d, c.offset), port.port)
  }

  lemma PortsOfRewritten(d: seq<Byte>, e: seq<Byte>, ipv6: bool, source: Address, destination: Address,
                         port: PortRewrite)
    requires Rewritable(d, ipv6) && Rewrites(d, e, ipv6, source, destination, port)
    ensures ContextOk(d, LayoutOf(d, ipv6))
    ensures Ports(e, LayoutOf(d, ipv6).offset, LayoutOf(d, ipv6).protocol) == NewPorts(d, LayoutOf(d, ipv6), port)
  {
    LayoutOk(d, ipv6);
    var c := LayoutOf(d, ipv6);
    var other := if port.SourcePort? then c.offset + 2 else c.offset;
    assert !MayChange(ipv6, c, port, other) && !MayChange(ipv6, c, port, other + 1);
  }

  lemma KeyParts(e: seq<Byte>, ipv6: bool, direction: Direction, permitFragments: bool)
    requires |e| >= KeyLength(ipv6) && PureHeader(e, ipv6, permitFragments).error.None?
    ensures var h := PureHeader(e, ipv6, permitFragments);
            PureKey(e, ipv6, direction, permitFragments)
            == Ok(BuildKey(direction, h.protocol, Source(e, ipv6), Destination(e, ipv6),
                           Ports(e, h.offset, h.protocol)))
  {
  }

  /** The key of a rewritten packet: the new addresses, the new port, everything else as before. */
  lemma KeyOfRewritten(d: seq<Byte>, e: seq<Byte>, ipv6: bool, source: Address, destination: Address, port: PortRewrite,
                       direction: Direction, permitFragments: bool)
    requires Rewritable(d, ipv6) && PureKey(d, ipv6, direction, permitFragments).Ok?
    requires Rewrites(d, e, ipv6, source, destination, port)
    ensures ContextOk(d, LayoutOf(d, ipv6))
    ensures PureKey(e, ipv6, direction, permitFragments)
            == Ok(BuildKey(direction, LayoutOf(d, ipv6).protocol, source, destination,
                           NewPorts(d, LayoutOf(d, ipv6), port)))
  {
    LayoutOk(d, ipv6);
    HeaderOfLayout(d, ipv6, permitFragments);
    HeaderKept(d, e, ipv6, source, destination, port, permitFragments);
    PortsOfRewritten(d, e, ipv6, source, destination, port);
    KeyParts(e, ipv6, direction, permitFragments);
  }

  lemma KeyOfLayout(d: seq<Byte>, ipv6: bool, direction: Direction, permitFragments: bool)
    requires Rewritable(d, ipv6) && PureKey(d, ipv6, direction, permitFragments).Ok?
    ensures ContextOk(d, LayoutOf(d, ipv6)) && |d| >= BaseLength(ipv6)
    ensures var c := LayoutOf(d, ipv6);
            PureKey(d, ipv6, direction, permitFragments).value
            == BuildKey(direction, c.protocol, Source(d, ipv6), Destination(d, ipv6),
                        (U16(d, c.offset), U16(d, c.offset + 2)))
  {
    LayoutOk(d, ipv6);
    HeaderOfLayout(d, ipv6, permitFragments);
  }

  // ---- redirecting -----------------------------------------------------------------------------------------------

  function LoopbackOf(ipv6: bool): Address {
    if ipv6 then V6(LOOPBACK_V6) else V4(LOOPBACK_V4)
  }

  /** The source address of a redirected packet: kept, unless it goes to a loopback target. */
  function OutboundSource(source: Address, target: Address, unify: bool): Address {
    if !unify && IsLoopback(target) then LoopbackOf(target.V6?) else source
  }

  function OutboundDestination(source: Address, target: Address, unify: bool): Address {
    if unify then source else target
  }

  ghost predicate RedirectsOutbound(d: seq<Byte>, e: seq<Byte>, ipv6: bool, info: RedirectInfo)
    requires Rewritable(d, ipv6) && info.redirectPort < 65536
  {
    LayoutOk(d, ipv6);
    Rewrites(d, e, ipv6, OutboundSource(Source(d, ipv6), info.redirectAddress, info.unify),
             OutboundDestination(Source(d, ipv6), info.redirectAddress, info.unify), DestinationPort(info.redirectPort))
  }

  ghost predicate RestoresInbound(d: seq<Byte>, e: seq<Byte>, ipv6: bool, info: RedirectInfo)
    requires Rewritable(d, ipv6) && info.remotePort < 65536
  {
    Rewrites(d, e, ipv6, info.remoteAddress, info.localAddress, SourcePort(info.remotePort))
  }

  /** The key under which replies to a redirected connection arrive. */
  function AliasOf(key: Key, info: RedirectInfo): Key {
    Key(key.protocol, OutboundSource(key.localAddress, info.redirectAddress, info.unify), key.localPort,
        OutboundDestination(key.localAddress, info.redirectAddress, info.unify), info.redirectPort)
  }

  lemma RedirectedKey(d: seq<Byte>, e: seq<Byte>, ipv6: bool, key: Key, info: RedirectInfo, permitFragments: bool)
    requires Rewritable(d, ipv6) && PureKey(d, ipv6, Outbound, permitFragments) == Ok(key) && info.redirectPort < 65536
    requires RedirectsOutbound(d, e, ipv6, info)
    ensures PureKey(e, ipv6, Outbound, permitFragments) == Ok(AliasOf(key, info))
  {
    LayoutOk(d, ipv6);
    KeyOfLayout(d, ipv6, Outbound, permitFragments);
    KeyOfRewritten(d, e, ipv6, OutboundSource(Source(d, ipv6), info.redirectAddress, info.unify),
                   OutboundDestination(Source(d, ipv6), info.redirectAddress, info.unify),
                   DestinationPort(info.redirectPort), Outbound, permitFragments);
  }

  lemma RestoredKey(d: seq<Byte>, e: seq<Byte>, ipv6: bool, key: Key, info: RedirectInfo, permitFragments: bool)
    requires Rewritable(d, ipv6) && PureKey(d, ipv6, Inbound, permitFragments) == Ok(key) && info.remotePort < 65536
    requires RestoresInbound(d, e, ipv6, info)
    ensures PureKey(e, ipv6, Inbound, permitFragments)
            == Ok(Key(key.protocol, info.localAddress, key.localPort, info.remoteAddress, info.remotePort))
  {
    KeyOfLayout(d, ipv6, Inbound, permitFragments);
    KeyOfRewritten(d, e, ipv6, info.remoteAddress, info.localAddress, SourcePort(info.remotePort), Inbound,
                   permitFragments);
  }

  lemma AliasMatches(key: Key, verdict: Verdict)
    requires RedirectOf(key, verdict).Some? && SameFamily(key)
    ensures var alias := AliasOf(key, RedirectOf(key, verdict).value);
            && RedirectEquals(key, verdict, alias) && IsRedirectPort(alias.remotePort, false)
            && Small(alias) == Small(key)
  {
  }

  /** A live connection, the only redirected one of its group, whose alias is no live connection's own tuple. */
  ghost predicate SoleRedirect(l: seq<CT.Conn>, c: CT.Conn, info: RedirectInfo) {
    && c in l && !CT.Ended(c) && SameFamily(c.key) && RedirectOf(c.key, c.verdict) == Some(info)
    && (forall x :: x in l && !CT.Ended(x) && RedirectOf(x.key, x.verdict).Some? ==> x == c)
    && (forall x :: x in l && !CT.Ended(x) ==> x.key != AliasOf(c.key, info))
  }

  /** The only redirected connection of its group is what a reply finds. */
  lemma ReplyFinds(l: seq<CT.Conn>, c: CT.Conn, info: RedirectInfo, fallback: bool)
    requires SoleRedirect(l, c, info)
    ensures var alias := AliasOf(c.key, info);
            var q := CT.Query(alias, true, false, None);
            && CT.Winner(l, alias, IsRedirectPort(alias.remotePort, false), fallback) == Some(q)
            && CT.First(l, q) == Some(c)
  {
    var q := CT.Query(AliasOf(c.key, info), true, false, None);
    AliasMatches(c.key, c.verdict);
    assert CT.Hits(q, c);
    assert CT.First(l, q).Some?;
    assert RedirectOf(CT.First(l, q).value.key, CT.First(l, q).value.verdict).Some?;
  }

  /**
   There and back: a packet of a redirected connection, redirected, has the alias as its
   key; the reply to it finds that connection; and restoring the reply gives it the
   connection's own key.
   */
  lemma RedirectRoundTrip(
    l: seq<CT.Conn>, c: CT.Conn, info: RedirectInfo, ipv6: bool, permitFragments: bool, fallback: bool,
    sent: seq<Byte>, redirected: seq<Byte>, reply: seq<Byte>, restored: seq<Byte>)
    requires SoleRedirect(l, c, info) && info.redirectPort < 65536 && info.remotePort < 65536
    requires Rewritable(sent, ipv6) && PureKey(sent, ipv6, Outbound, permitFragments) == Ok(c.key)
    requires RedirectsOutbound(sent, redirected, ipv6, info)
    requires Rewritable(reply, ipv6)
    requires PureKey(reply, ipv6, Inbound, permitFragments) == PureKey(redirected, ipv6, Outbound, permitFragments)
    requires RestoresInbound(reply, restored, ipv6, info)
    ensures PureKey(reply, ipv6, Inbound, permitFragments) == Ok(AliasOf(c.key, info))
    ensures var alias := AliasOf(c.key, info);
            var w := CT.Winner(l, alias, IsRedirectPort(alias.remotePort, false), fallback);
            w.Some? && CT.First(l, w.value) == Some(c)
    ensures PureKey(restored, ipv6, Inbound, permitFragments) == Ok(c.key)
  {
    hide PureKey, Rewrites, RedirectsOutbound, RestoresInbound, Rewritable;
    RedirectedKey(sent, redirected, ipv6, c.key, info, permitFragments);
    ReplyFinds(l, c, info, fallback);
    RestoredKey(reply, restored, ipv6, AliasOf(c.key, info), info, permitFragments);
  }

  // ---- in place -------------------------------------------------------------------------------------------

  lemma Addressed4Touches(d: seq<Byte>, source: Octets4, destination: Octets4)
    requires |d| >= BASE4
    ensures var e := Addressed4(d, source, destination);
            && |e| == |d| && e[12..16] == source && e[16..20] == destination
            && (forall i :: 0 <= i < |d| && !(12 <= i < 20) ==> e[i] == d[i])
  {
    var a := Replace(d, 12, source);
    SameSlice(Replace(a, 16, destination), a, 12, 16);
  }

  lemma HeaderFilledTouches(d: seq<Byte>, length: nat)
    requires BASE4 <= |d| && length <= |d|
    ensures var e := HeaderFilled(d, length);
            |e| == |d| && forall i :: 0 <= i < |d| && i != 10 && i != 11 ==> e[i] == d[i]
  {
  }

  /** New addresses and a new header checksum, and nothing else. */
  ghost predicate Readdresses(d: seq<Byte>, e: seq<Byte>, source: Octets4, destination: Octets4) {
    && |e| == |d| && |d| >= BASE4
    && e[12..16] == source && e[16..20] == destination
    && (forall i :: 0 <= i < |d| && !(10 <= i < 20) ==> e[i] == d[i])
  }

  lemma Header4Readdresses(d: seq<Byte>, source: Octets4, destination: Octets4, length: nat)
    requires |d| >= BASE4 && length <= |d|
    ensures Readdresses(d, HeaderFilled(Addressed4(d, source, destination), length), source, destination)
  {
    Addressed4Touches(d, source, destination);
    var b := Addressed4(d, source, destination);
    HeaderFilledTouches(b, length);
    var a := HeaderFilled(b, length);
    SameSlice(a, b, 12, 16);
    SameSlice(a, b, 16, 20);
  }

  /** The header of a rewritten packet, before its port changes. */
  lemma Header4Touches(d: seq<Byte>, source: Octets4, destination: Octets4)
    requires Valid4(d)
    ensures var c := Context4(d);
            var a := HeaderFilled(Addressed4(d, source, destination), c.offset);
            && |a| == |d| && ContextOk(a, c) && a[12..16] == source && a[16..20] == destination
            && (forall i :: 0 <= i < |d| && !(10 <= i < 20) ==> a[i] == d[i])
  {
    var c := Context4(d);
    Header4Readdresses(d, source, destination, c.offset);
    ContextKept(d, HeaderFilled(Addressed4(d, source, destination), c.offset), c);
  }

  predicate InTransport(c: Context, port: PortRewrite, i: nat) {
    PortAt(c, port) <= i < PortAt(c, port) + 2 || ChecksumAt(c) <= i < ChecksumAt(c) + 2
  }

  lemma PortedTouches4(a: seq<Byte>, c: Context, source: seq<Byte>, destination: seq<Byte>, port: PortRewrite)
    requires ContextOk(a, c)
    ensures var e := Ported(a, c, source, destination, port);
            && |e| == |a| && ContextOk(e, c) && PortAt(c, port) + 2 <= |a| && U16(e, PortAt(c, port)) == port.port
            && (forall i :: 0 <= i < |a| && !InTransport(c, port, i) ==> e[i] == a[i])
  {
    UpperInside(a, c);
    var b := Replace(a, PortAt(c, port), Bytes(port.port));
    ContextKept(a, b, c);
    WordWritten(a, PortAt(c, port), port.port);
    FilledTouches(b, c, source, destination);
  }

  lemma PortedVerifies(a: seq<Byte>, c: Context, source: Octets4, destination: Octets4, port: PortRewrite)
    requires ContextOk(a, c) && c.total <= 65535
    ensures ContextOk(Ported(a, c, source, destination, port), c)
    ensures TransportTotal(Ported(a, c, source, destination, port), c, source, destination) == 65535
  {
    UpperInside(a, c);
    var b := Replace(a, PortAt(c, port), Bytes(port.port));
    ContextKept(a, b, c);
    FilledIsRight(b, c, source, destination);
  }

  /** Header and transport changes together stay within what a redirect may change. */
  lemma Frame4(d: seq<Byte>, a: seq<Byte>, e: seq<Byte>, c: Context, port: PortRewrite)
    requires |d| == |a| == |e|
    requires forall i :: 0 <= i < |d| && !(10 <= i < 20) ==> a[i] == d[i]
    requires forall i :: 0 <= i < |d| && !InTransport(c, port, i) ==> e[i] == a[i]
    ensures forall i :: 0 <= i < |d| && !MayChange(false, c, port, i) ==> e[i] == d[i]
  {
  }

  lemma Addresses4(a: seq<Byte>, e: seq<Byte>, c: Context, port: PortRewrite)
    requires |a| == |e| && |a| >= BASE4 && c.offset >= BASE4
    requires forall i :: 0 <= i < |a| && !InTransport(c, port, i) ==> e[i] == a[i]
    ensures Source(e, false) == Source(a, false) && Destination(e, false) == Destination(a, false)
  {
    SameSlice(e, a, 12, 16);
    SameSlice(e, a, 16, 20);
  }

  /** Rewriting a valid IPv4 packet changes the addresses, the port and the checksums, and nothing else. */
  lemma Rewritten4Meets(d: seq<Byte>, source: Octets4, destination: Octets4, port: PortRewrite)
    requires Valid4(d)
    ensures Rewrites(d, Rewritten4(d, source, destination, port), false, V4(source), V4(destination), port)
  {
    var c := Context4(d);
    Header4Touches(d, source, destination);
    var a := HeaderFilled(Addressed4(d, source, destination), c.offset);
    PortedTouches4(a, c, source, destination, port);
    var e := Ported(a, c, source, destination, port);
    assert e == Rewritten4(d, source, destination, port);
    Frame4(d, a, e, c, port);
    Addresses4(a, e, c, port);
  }

  /** A parsable IPv4 packet without a whole TCP or UDP header. */
  predicate Bare4(d: seq<Byte>) {
    Checked4(d) && HeaderLength4(d) >= BASE4 && !ContextOk(d, Context4(d))
  }

  /**
   Rewriting a parsable IPv4 packet without a whole TCP or UDP header gives it the addresses
   and touches nothing else.
   */
  lemma Rewritten4Bare(d: seq<Byte>, source: Octets4, destination: Octets4, port: PortRewrite)
    requires Bare4(d)
    ensures Readdresses(d, Rewritten4(d, source, destination, port), source, destination)
  {
    var c := Context4(d);
    Header4Readdresses(d, source, destination, c.offset);
    var a := HeaderFilled(Addressed4(d, source, destination), c.offset);
    assert a[c.offset..c.total] == d[c.offset..c.total];
  }

  /** The transport checksum of a rewritten IPv4 packet verifies. */
  lemma Rewritten4Verifies(d: seq<Byte>, source: Octets4, destination: Octets4, port: PortRewrite)
    requires Valid4(d)
    ensures var e := Rewritten4(d, source, destination, port);
            ContextOk(e, Context4(d)) && TransportTotal(e, Context4(d), source, destination) == 65535
  {
    var c := Context4(d);
    Header4Touches(d, source, destination);
    PortedVerifies(HeaderFilled(Addressed4(d, source, destination), c.offset), c, source, destination, port);
  }

  lemma Rewritten6Meets(d: seq<Byte>, source: Octets16, destination: Octets16, port: PortRewrite)
    requires Verdict6(d).Ok?
    ensures |d| >= BASE6 && ContextOk(d, Verdict6(d).value) && Verdict6(d).value.offset >= BASE6
    ensures var e := Rewritten6(d, Verdict6(d).value, source, destination, port);
            Rewrites(d, e, true, V6(source), V6(destination), port)
  {
    VerdictContext(d);
    RewriteFrame(d, Verdict6(d).value, source, destination, port);
  }

  // ---- what a receiver accepts ----------------------------------------------------------------------------

  /** The transport segment with its pseudo-header passes the receiver's test. */
  ghost predicate SegmentVerifies(e: seq<Byte>, c: Context, source: seq<Byte>, destination: seq<Byte>)
    requires ContextOk(e, c)
  {
    UpperInside(e, c);
    && c.protocol < 256 && Upper(e, c) < WORD
    && Verifies(PseudoHeader(source, destination, c.protocol,
       Upper(e, c)) + Padded(e[c.offset..c.offset + Upper(e, c)]))
  }

  /** A receiver accepts every checksum of this packet: the IPv4 header's and the transport's. */
  ghost predicate Accepted(e: seq<Byte>, ipv6: bool, c: Context) {
    && ContextOk(e, c) && |e| >= BaseLength(ipv6)
    && (c.protocol == UDP ==> U16(e, c.offset + 6) != 0)
    && (!ipv6 ==> Verifies(e[..c.offset]))
    && if ipv6 then SegmentVerifies(e, c, e[8..24], e[24..40]) else SegmentVerifies(e, c, e[12..16], e[16..20])
  }

  lemma SegmentOfTotal(e: seq<Byte>, c: Context, source: seq<Byte>, destination: seq<Byte>)
    requires ContextOk(e, c) && c.total <= c.offset + 65535
    requires |source| == |destination| && (|source| == 4 || |source| == 16)
    requires TransportTotal(e, c, source, destination) == 65535
    ensures SegmentVerifies(e, c, source, destination)
  {
    UpperInside(e, c);
    TotalVerifies(source, destination, c.protocol, e[c.offset..c.offset + Upper(e, c)]);
  }

  lemma SumPositive(s: seq<Byte>)
    requires |s| >= 2 && s[0] > 0
    ensures Sum16(s) > 0
  {
  }

  /** The complement written into the zeroed field makes an IPv4 header verify. */
  lemma HeaderFilledVerifies(d: seq<Byte>, length: nat)
    requires BASE4 <= length <= 60 && length <= |d| && length % 2 == 0 && d[0] > 0
    ensures Verifies(HeaderFilled(d, length)[..length])
  {
    hide Fold, Sum16, Verifies;
    var zeroed := Replace(d, 10, [0, 0]);
    var z := zeroed[..length];
    assert zeroed[10..12] == [0, 0] && zeroed[10] == zeroed[10..12][0] && zeroed[11] == zeroed[10..12][1];
    SumFits(z);
    assert z[0] == d[0];
    SumPositive(z);
    var k := FoldMeaning(Sum16(z));
    var stored := 65535 - Fold(Sum16(z));
    var e := HeaderFilled(d, length);
    SetWord(zeroed, 0, length, 10, stored);
    assert e[..length] == e[0..length] && z == zeroed[0..length];
    SumSet(z, 10, Hi(stored), Lo(stored));
    ComplementVerifies(Sum16(z), stored);
    AllOnesVerifies(e[..length]);
  }

  lemma HeaderVerifies4(d: seq<Byte>, source: Octets4, destination: Octets4)
    requires Checked4(d) && HeaderLength4(d) >= BASE4
    ensures var n := HeaderLength4(d); Verifies(HeaderFilled(Addressed4(d, source, destination), n)[..n])
  {
    hide Verifies;
    Addressed4Touches(d, source, destination);
    HeaderFilledVerifies(Addressed4(d, source, destination), HeaderLength4(d));
  }

  lemma PortedNonzero(a: seq<Byte>, c: Context, source: seq<Byte>, destination: seq<Byte>, port: PortRewrite)
    requires ContextOk(a, c)
    ensures c.protocol == UDP ==>
              var e := Ported(a, c, source, destination, port); c.offset + 8 <= |e| && U16(e, c.offset + 6) != 0
  {
    UpperInside(a, c);
    var b := Replace(a, PortAt(c, port), Bytes(port.port));
    ContextKept(a, b, c);
    if c.protocol == UDP { FilledNonzero(b, c, source, destination); }
  }

  lemma Rewritten4IsPorted(d: seq<Byte>, source: Octets4, destination: Octets4, port: PortRewrite)
    requires Valid4(d)
    ensures var c := Context4(d);
            var a := HeaderFilled(Addressed4(d, source, destination), c.offset);
            ContextOk(a, c) && Rewritten4(d, source, destination, port) == Ported(a, c, source, destination, port)
  {
    Header4Touches(d, source, destination);
  }

  lemma Header4Survives(d: seq<Byte>, source: Octets4, destination: Octets4, port: PortRewrite)
    requires Valid4(d)
    ensures var e := Rewritten4(d, source, destination, port);
            var c := Context4(d);
            |e| == |d| && Verifies(e[..c.offset]) && e[12..16] == source && e[16..20] == destination
  {
    hide Verifies, Fold, Sum16;
    var c := Context4(d);
    var a := HeaderFilled(Addressed4(d, source, destination), c.offset);
    var e := Rewritten4(d, source, destination, port);
    HeaderVerifies4(d, source, destination);
    Header4Touches(d, source, destination);
    PortedTouches4(a, c, source, destination, port);
    SameSlice(e, a, 0, c.offset);
    assert e[..c.offset] == e[0..c.offset] && a[..c.offset] == a[0..c.offset];
    Addresses4(a, e, c, port);
  }

  /** After the rewrite of a valid IPv4 packet both its checksums verify. */
  lemma Rewritten4Accepted(d: seq<Byte>, source: Octets4, destination: Octets4, port: PortRewrite)
    requires Valid4(d)
    ensures Accepted(Rewritten4(d, source, destination, port), false, Context4(d))
  {
    hide Verifies, Fold, Sum16, Rewritten4, Ported, HeaderFilled, SegmentVerifies, TransportTotal;
    var c := Context4(d);
    Header4Survives(d, source, destination, port);
    Rewritten4IsPorted(d, source, destination, port);
    Rewritten4Verifies(d, source, destination, port);
    PortedNonzero(HeaderFilled(Addressed4(d, source, destination), c.offset), c, source, destination, port);
    SegmentOfTotal(Rewritten4(d, source, destination, port), c, source, destination);
  }

  /** After the rewrite of any other parsable IPv4 packet its header checksum verifies. */
  lemma Rewritten4BareAccepted(d: seq<Byte>, source: Octets4, destination: Octets4, port: PortRewrite)
    requires Bare4(d)
    ensures var e := Rewritten4(d, source, destination, port);
            HeaderLength4(d) <= |e| && Verifies(e[..HeaderLength4(d)])
  {
    hide Verifies;
    var c := Context4(d);
    HeaderVerifies4(d, source, destination);
    Header4Readdresses(d, source, destination, c.offset);
    var a := HeaderFilled(Addressed4(d, source, destination), c.offset);
    assert a[c.offset..c.total] == d[c.offset..c.total];
  }

  /** After the rewrite of a valid IPv6 packet its transport checksum verifies. */
  lemma Rewritten6Accepted(d: seq<Byte>, source: Octets16, destination: Octets16, port: PortRewrite)
    requires Verdict6(d).Ok?
    ensures |d| >= BASE6 && ContextOk(d, Verdict6(d).value) && Verdict6(d).value.offset >= BASE6
    ensures Accepted(Rewritten6(d, Verdict6(d).value, source, destination, port), true, Verdict6(d).value)
  {
    hide Verifies, Fold, Sum16;
    var c := Verdict6(d).value;
    VerdictContext(d);
    RewriteFrame(d, c, source, destination, port);
    RewriteVerifies(d, c, source, destination, port);
    PortedTouches(d, c, source, destination, port);
    if c.protocol == UDP {
      FilledNonzero(Replace(Addressed6(d, source, destination), PortAt(c, port), Bytes(port.port)), c,
                    source, destination);
    }
    SegmentOfTotal(Rewritten6(d, c, source, destination, port), c, source, destination);
  }

  method RewriteIpv4(packet: array<Byte>, source: Octets4, destination: Octets4, port: PortRewrite)
    modifies packet
    ensures packet[..] == if Checked4(old(packet[..])) then Rewritten4(old(packet[..]), source, destination, port)
            else old(packet[..])
  {
    if !Checked4(packet[..]) {
      return;
    }
    var c := Context4(packet[..]);
    Store(packet, 12, source);
    Store(packet, 16, destination);
    Store(packet, 10, [0, 0]);
    Store(packet, 10, Bytes(65535 - Fold(Sum16(packet[..c.offset]))));
    assert packet[..] == HeaderFilled(Addressed4(old(packet[..]), source, destination), c.offset);
    if ContextOk(packet[..], c) {
      UpperInside(packet[..], c);
      ContextKept(packet[..], Replace(packet[..], PortAt(c, port), Bytes(port.port)), c);
      Store(packet, PortAt(c, port), Bytes(port.port));
      FillChecksum(packet, c, source, destination);
    }
  }

  /** All that an IPv4 rewrite does, for every parsable packet. */
  lemma Rewriting4(d: seq<Byte>, source: Octets4, destination: Octets4, port: PortRewrite)
    ensures Valid4(d) ==> var e := Rewritten4(d, source, destination, port);
                          Rewrites(d, e, false, V4(source), V4(destination), port) && Accepted(e, false, Context4(d))
    ensures Bare4(d) ==> var e := Rewritten4(d, source, destination, port);
                         && Readdresses(d, e, source, destination)
                         && |e| == |d| && Verifies(e[..HeaderLength4(d)])
  {
    hide Accepted, Verifies, Rewrites;
    if Valid4(d) {
      Rewritten4Meets(d, source, destination, port);
      Rewritten4Accepted(d, source, destination, port);
    }
    if Bare4(d) {
      Rewritten4Bare(d, source, destination, port);
      Rewritten4BareAccepted(d, source, destination, port);
    }
  }

  lemma Rewriting6(d: seq<Byte>, source: Octets16, destination: Octets16, port: PortRewrite)
    ensures Verdict6(d).Ok? ==>
              && |d| >= BASE6 && ContextOk(d, Verdict6(d).value) && Verdict6(d).value.offset >= BASE6
              && var e := Rewritten6(d, Verdict6(d).value, source, destination, port);
                 Rewrites(d, e, true, V6(source), V6(destination), port) && Accepted(e, true, Verdict6(d).value)
  {
    hide Accepted, Rewrites;
    if Verdict6(d).Ok? {
      Rewritten6Meets(d, source, destination, port);
      Rewritten6Accepted(d, source, destination, port);
    }
  }

  /**
   The addresses of a redirected packet: with `unify` it is sent from its own source to its own
   source, otherwise to the target, and from the loopback address if the target is one.
   */
  ghost predicate GoesTo(d: seq<Byte>, e: seq<Byte>, target: Address, unify: bool) {
    && |d| >= BaseLength(target.V6?) && |e| == |d|
    && var own := Source(d, target.V6?);
       && Destination(e, target.V6?) == (if unify then own else target)
       && (target.V4? ==> Source(e, false) == if !unify && target.v4[0] == 127 then V4([127, 0, 0, 1]) else own)
       && (target.V6? && (unify || target.v6 != LOOPBACK_V6) ==> Source(e, true) == own)
       && (target.V6? && !unify && target.v6 == LOOPBACK_V6 ==> Source(e, true) == target)
  }

  /** Sends an outbound packet to the redirect target; a packet that cannot be rewritten stays as it is. */
  method RedirectOutbound(packet: array<Byte>, target: Address, port: Word16, unify: bool) returns (ok: bool)
    modifies packet
    ensures target.V6? ==> ok == Verdict6(old(packet[..])).Ok? && (!ok ==> packet[..] == old(packet[..]))
    ensures target.V4? ==> ok && (!Checked4(old(packet[..])) ==> packet[..] == old(packet[..]))
    ensures target.V4? && Bare4(old(packet[..])) ==>
              var source := Source(old(packet[..]), false);
              Readdresses(old(packet[..]), packet[..], OutboundSource(source, target, unify).v4,
                          OutboundDestination(source, target, unify).v4)
    ensures Rewritable(old(packet[..]), target.V6?) ==>
              && packet.Length >= BaseLength(target.V6?)
              && var source := Source(old(packet[..]), target.V6?);
                 Rewrites(old(packet[..]), packet[..], target.V6?, OutboundSource(source, target, unify),
                          OutboundDestination(source, target, unify), DestinationPort(port))
    ensures Rewritable(old(packet[..]), target.V6?) ==>
              Accepted(packet[..], target.V6?, LayoutOf(old(packet[..]), target.V6?))
    ensures target.V4? && Bare4(old(packet[..])) ==> Verifies(packet[..][..HeaderLength4(old(packet[..]))])
    ensures Rewritable(old(packet[..]), target.V6?) ==> GoesTo(old(packet[..]), packet[..], target, unify)
  {
    hide Accepted, Verifies, Readdresses;
    ghost var d := packet[..];
    if Rewritable(d, target.V6?) {
      LayoutOk(d, target.V6?);
    }
    if packet.Length < BaseLength(target.V6?) {
      return target.V4?;
    }
    var own := Source(packet[..], target.V6?);
    var source, destination := OutboundSource(own, target, unify), OutboundDestination(own, target, unify);
    if target.V4? {
      Rewriting4(d, source.v4, destination.v4, DestinationPort(port));
      RewriteIpv4(packet, source.v4, destination.v4, DestinationPort(port));
      return true;
    }
    Rewriting6(d, source.v6, destination.v6, DestinationPort(port));
    var r := RewriteIpv6(packet, source.v6, destination.v6, DestinationPort(port));
    return r.Ok?;
  }

  /** Gives a reply the addresses and the port its connection was opened with. */
  method RedirectInbound(packet: array<Byte>, local: Address, remote: Address, port: Word16) returns (ok: bool)
    modifies packet
    ensures local.V4? != remote.V4? ==> !ok && packet[..] == old(packet[..])
    ensures local.V6? && remote.V6? ==> ok == Verdict6(old(packet[..])).Ok? && (!ok ==> packet[..] == old(packet[..]))
    ensures local.V4? && remote.V4? ==> ok && (!Checked4(old(packet[..])) ==> packet[..] == old(packet[..]))
    ensures local.V4? && remote.V4? && Bare4(old(packet[..])) ==>
              Readdresses(old(packet[..]), packet[..], remote.v4, local.v4)
    ensures ok && Rewritable(old(packet[..]), local.V6?) ==>
              Rewrites(old(packet[..]), packet[..], local.V6?, remote, local, SourcePort(port))
    ensures ok && Rewritable(old(packet[..]), local.V6?) ==>
              Accepted(packet[..], local.V6?, LayoutOf(old(packet[..]), local.V6?))
    ensures ok && local.V4? && Bare4(old(packet[..])) ==> Verifies(packet[..][..HeaderLength4(old(packet[..]))])
  {
    hide Accepted, Verifies, Rewrites, Readdresses;
    if local.V4? != remote.V4? {
      return false;
    }
    ghost var d := packet[..];
    if local.V4? {
      Rewriting4(d, remote.v4, local.v4, SourcePort(port));
      RewriteIpv4(packet, remote.v4, local.v4, SourcePort(port));
      return true;
    }
    Rewriting6(d, remote.v6, local.v6, SourcePort(port));
    var r := RewriteIpv6(packet, remote.v6, local.v6, SourcePort(port));
    return r.Ok?;
  }
}
