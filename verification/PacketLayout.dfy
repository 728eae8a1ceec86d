/**
 Packets laid out from chosen field values (RFC 791, RFC 792, RFC 9293, RFC 8200, RFC 4443),
 and what the inspector reports of them.
 */
module PacketLayout {
  import opened Net
  import opened Ipv6Walk
  import opened Inspection

  type Word = n: nat | n < 65536

  function Be(v: Word): seq<Byte> {
    [v / 256, v % 256]
  }

  // ---- IPv4 --------------------------------------------------------------------------------------

  datatype Ip4 = Ip4(
    tos: Byte, total: Word, ident: Word, moreFragments: bool, fragmentOffset: nat, ttl: Byte, protocol: Byte,
    checksum: Word, source: Octets4, destination: Octets4, options: seq<Byte>)

  predicate Wellformed(h: Ip4) {
    h.fragmentOffset < 8192 && |h.options| <= 40 && |h.options| % 4 == 0
  }

  function Flags(h: Ip4): Byte
    requires Wellformed(h)
  {
    (if h.moreFragments then 32 else 0) + h.fragmentOffset / 256
  }

  function Header4(h: Ip4): (r: seq<Byte>)
    requires Wellformed(h)
    ensures |r| == 20 + |h.options|
  {
    [64 + 5 + |h.options| / 4, h.tos, h.total / 256, h.total % 256, h.ident / 256, h.ident % 256,
     Flags(h), h.fragmentOffset % 256, h.ttl, h.protocol, h.checksum / 256, h.checksum % 256]
    + h.source + h.destination + h.options
  }

  predicate IsFragment(h: Ip4) {
    h.moreFragments || h.fragmentOffset > 0
  }

  lemma Fields4(h: Ip4, payload: seq<Byte>)
    requires Wellformed(h)
    ensures var d := Header4(h) + payload;
            && |d| == 20 + |h.options| + |payload| && d[20 + |h.options|..] == payload
            && Version(d) == 4 && HeaderLength4(d) == 20 + |h.options| && DeclaredLength(d, false) == h.total
            && MoreFragments(d) == h.moreFragments && FragmentOffset(d) == h.fragmentOffset && d[9] == h.protocol
            && Source(d, false) == V4(h.source) && Destination(d, false) == V4(h.destination)
  {
    var d := Header4(h) + payload;
    assert d[12..16] == h.source && d[16..20] == h.destination;
  }

  /** What the inspector takes for the header of a laid-out packet. */
  lemma Headers4(h: Ip4, payload: seq<Byte>, permitFragments: bool)
    requires Wellformed(h)
    ensures PureHeader(Header4(h) + payload, false, permitFragments)
            == Header(h.protocol, 20 + |h.options|, IsFragment(h), true,
                      if permitFragments && IsFragment(h) then Some(NeedsReassembly) else None)
  {
    hide Header4, Version, HeaderLength4, DeclaredLength, MoreFragments, FragmentOffset, Source, Destination;
    Fields4(h, payload);
  }

  lemma WordsAt(d: seq<Byte>, offset: nat, a: Word, b: Word, more: seq<Byte>)
    requires offset <= |d| && d[offset..] == Be(a) + Be(b) + more
    ensures offset + 4 <= |d| && U16(d, offset) == a && U16(d, offset + 2) == b
  {
    var s := d[offset..];
    assert d[offset] == s[0] && d[offset + 1] == s[1] && d[offset + 2] == s[2] && d[offset + 3] == s[3];
  }

  /** The key a TCP or UDP packet has, by direction. */
  function TransportKey(direction: Direction, protocol: nat, source: Address, from: Word, destination: Address,
                        to: Word): Key {
    if direction == Outbound then Key(protocol, source, from, destination, to)
        else Key(protocol, destination, to, source, from)
  }

  /** The key of an IPv4 TCP or UDP packet, behind any options; a fragment has none where reassembly is awaited. */
  lemma KeyOf4(h: Ip4, from: Word, to: Word, more: seq<Byte>, direction: Direction, permitFragments: bool)
    requires Wellformed(h) && (h.protocol == 6 || h.protocol == 17)
    ensures PureKey(Header4(h) + (Be(from) + Be(to) + more), false, direction, permitFragments)
            == if permitFragments && IsFragment(h) then Err(NeedsReassembly)
               else Ok(TransportKey(direction, h.protocol, V4(h.source), from, V4(h.destination), to))
  {
    var payload := Be(from) + Be(to) + more;
    Fields4(h, payload);
    Headers4(h, payload, permitFragments);
    var d := Header4(h) + payload;
    WordsAt(d, 20 + |h.options|, from, to, more);
    hide Header4, PureHeader, U16;
  }

  /** Other protocols have the key without ports, if four bytes follow the twenty of the header. */
  lemma PortlessKeyOf4(h: Ip4, payload: seq<Byte>, direction: Direction)
    requires Wellformed(h) && h.protocol != 6 && h.protocol != 17
    ensures PureKey(Header4(h) + payload, false, direction, false)
            == if |h.options| + |payload| < 4 then Err(Unreadable)
               else Ok(TransportKey(direction, h.protocol, V4(h.source), 0, V4(h.destination), 0))
  {
    Fields4(h, payload);
    Headers4(h, payload, false);
    hide Header4, PureHeader, U16;
  }

  // ---- IPv6 without extension headers -------------------------------------------------------------------

  datatype Ip6 = Ip6(trafficClass: Byte, flow: seq<Byte>, length: Word, next: Byte, hops: Byte, source: Octets16,
      destination: Octets16)

  predicate Wellformed6(h: Ip6) {
    h.trafficClass < 16 && |h.flow| == 3 && !IsExtension(h.next)
  }

  function Header6(h: Ip6): (r: seq<Byte>)
    requires Wellformed6(h)
    ensures |r| == 40
  {
    [96 + h.trafficClass, h.flow[0], h.flow[1], h.flow[2], h.length / 256, h.length % 256, h.next, h.hops]
    + h.source + h.destination
  }

  lemma Fields6(h: Ip6, payload: seq<Byte>)
    requires Wellformed6(h)
    ensures var d := Header6(h) + payload;
            && |d| == 40 + |payload| && d[40..] == payload
            && Version(d) == 6 && DeclaredLength(d, true) == 40 + h.length && d[6] == h.next
            && Source(d, true) == V6(h.source) && Destination(d, true) == V6(h.destination)
            && (forall permit :: PureHeader(d, true, permit) == Header(h.next, 40, false, true, None))
  {
    var d := Header6(h) + payload;
    assert d[8..24] == h.source && d[24..40] == h.destination;
  }

  lemma KeyOf6(h: Ip6, from: Word, to: Word, more: seq<Byte>, direction: Direction, permitFragments: bool)
    requires Wellformed6(h) && (h.next == 6 || h.next == 17)
    ensures PureKey(Header6(h) + (Be(from) + Be(to) + more), true, direction, permitFragments)
            == Ok(TransportKey(direction, h.next, V6(h.source), from, V6(h.destination), to))
  {
    var payload := Be(from) + Be(to) + more;
    Fields6(h, payload);
    WordsAt(Header6(h) + payload, 40, from, to, more);
    hide Header6, PureHeader, U16;
  }

  // ---- TCP flags ------------------------------------------------------------------------------------------

  datatype Flag8 = Flag8(cwr: bool, ece: bool, urg: bool, ack: bool, psh: bool, rst: bool, syn: bool, fin: bool)

  function Bit(b: bool, v: nat): nat {
    if b then v else 0
  }

  function FlagByte(f: Flag8): Byte {
    Bit(f.cwr, 128) + Bit(f.ece, 64) + Bit(f.urg, 32) + Bit(f.ack, 16)
    + Bit(f.psh, 8) + Bit(f.rst, 4) + Bit(f.syn, 2) + Bit(f.fin, 1)
  }

  lemma ResetBit(f: Flag8)
    ensures IsReset(FlagByte(f)) == f.rst
  {
  }

  lemma FlagsAt(d: seq<Byte>, offset: nat, head: seq<Byte>, f: Flag8, more: seq<Byte>)
    requires offset <= |d| && |head| == 13 && d[offset..] == head + [FlagByte(f)] + more
    ensures offset + 13 < |d| && d[offset + 13] == FlagByte(f)
  {
    assert d[offset + 13] == d[offset..][13];
  }

  /** A reset is reported exactly when the RST bit of a TCP header is set; `head` is the header up to its flags. */
  lemma ResetOf4(h: Ip4, head: seq<Byte>, f: Flag8, more: seq<Byte>, permitFragments: bool)
    requires Wellformed(h) && h.protocol == 6 && |head| == 13
    ensures PureReset(Header4(h) + (head + [FlagByte(f)] + more), false, permitFragments)
            <==> f.rst && !(permitFragments && IsFragment(h))
  {
    var payload := head + [FlagByte(f)] + more;
    Fields4(h, payload);
    Headers4(h, payload, permitFragments);
    FlagsAt(Header4(h) + payload, 20 + |h.options|, head, f, more);
    ResetBit(f);
    hide Header4, PureHeader, IsReset, FlagByte;
  }

  lemma ResetOf6(h: Ip6, head: seq<Byte>, f: Flag8, more: seq<Byte>, permitFragments: bool)
    requires Wellformed6(h) && h.next == 6 && |head| == 13
    ensures PureReset(Header6(h) + (head + [FlagByte(f)] + more), true, permitFragments) <==> f.rst
  {
    var payload := head + [FlagByte(f)] + more;
    Fields6(h, payload);
    FlagsAt(Header6(h) + payload, 40, head, f, more);
    ResetBit(f);
    hide Header6, PureHeader, IsReset, FlagByte;
  }

  // ---- ICMP -------------------------------------------------------------------------------------------------

  /** The eight bytes of an ICMP header: type, code, checksum and two words. */
  function IcmpHeader(kind: Byte, code: Byte, checksum: Word, a: Word, b: Word): (r: seq<Byte>)
    ensures |r| == 8
  {
    [kind, code] + Be(checksum) + Be(a) + Be(b)
  }

  lemma EchoBytes(kind: Byte, code: Byte, checksum: Word, id: Word, sequence: Word, ipv6: bool)
    ensures EchoOf(IcmpHeader(kind, code, checksum, id, sequence), ipv6)
            == if kind == (if ipv6 then 128 else 8) then Some(Echo(true, id, sequence))
               else if kind == (if ipv6 then 129 else 0) then Some(Echo(false, id, sequence)) else None
  {
  }

  /** An echo request or reply is reported with its identifier and sequence number, and nothing else is one. */
  lemma EchoOf4(h: Ip4, kind: Byte, code: Byte, checksum: Word, id: Word, sequence: Word, more: seq<Byte>,
                direction: Direction, key: Key)
    requires Wellformed(h) && h.protocol == 1
    ensures PureIcmp(Header4(h) + (IcmpHeader(kind, code, checksum, id, sequence) + more), false, direction, false,
            key).echo
            == if kind == 8 then Some(Echo(true, id, sequence))
               else if kind == 0 then Some(Echo(false, id, sequence)) else None
  {
    var icmp := IcmpHeader(kind, code, checksum, id, sequence);
    var d := Header4(h) + (icmp + more);
    var o := 20 + |h.options|;
    Fields4(h, icmp + more);
    Headers4(h, icmp + more, false);
    assert d[o..o + 8] == d[o..][..8] == icmp;
    EchoBytes(kind, code, checksum, id, sequence, false);
    hide Header4, PureHeader, IcmpHeader, EchoOf, PureQuote, IsIcmpError;
  }

  lemma EchoOf6(h: Ip6, kind: Byte, code: Byte, checksum: Word, id: Word, sequence: Word, more: seq<Byte>,
                direction: Direction, key: Key)
    requires Wellformed6(h) && h.next == 58
    ensures PureIcmp(Header6(h) + (IcmpHeader(kind, code, checksum, id, sequence) + more), true, direction, false,
            key).echo
            == if kind == 128 then Some(Echo(true, id, sequence))
               else if kind == 129 then Some(Echo(false, id, sequence)) else None
  {
    var icmp := IcmpHeader(kind, code, checksum, id, sequence);
    var d := Header6(h) + (icmp + more);
    Fields6(h, icmp + more);
    assert d[40..48] == d[40..][..8] == icmp;
    EchoBytes(kind, code, checksum, id, sequence, true);
    hide Header6, PureHeader, IcmpHeader, EchoOf, PureQuote, IsIcmpError;
  }

  // ---- quotes -------------------------------------------------------------------------------------------------

  /** What is quoted of a packet this host sent: its header and the start of its payload, as far as declared. */
  lemma QuoteBytes(q: Ip4, payload: seq<Byte>, local: Address, n: nat)
    requires Wellformed(q) && q.fragmentOffset == 0 && local == V4(q.source)
    requires n <= |payload| && 20 + |q.options| + n <= q.total
    requires TransportLength(q.protocol, false) == Some(n)
    ensures PureQuote(Header4(q) + payload, false, local)
            == ErrorOf(q.protocol, local, V4(q.destination), payload[..n])
  {
    var d := Header4(q) + payload;
    var o := 20 + |q.options|;
    Fields4(q, payload);
    assert d[o..o + n] == d[o..][..n] == payload[..n];
    hide Header4, ErrorOf, TransportLength, Version, HeaderLength4, DeclaredLength, FragmentOffset, Source, Destination;
  }

  /** A quoted TCP or UDP packet is named by its protocol, its destination and its two ports. */
  lemma TransportQuote(q: Ip4, from: Word, to: Word, more: seq<Byte>, local: Address)
    requires Wellformed(q) && q.fragmentOffset == 0 && local == V4(q.source) && 24 + |q.options| <= q.total
    requires q.protocol == 6 || q.protocol == 17
    ensures PureQuote(Header4(q) + (Be(from) + Be(to) + more), false, local)
            == Some(Transport(q.protocol, V4(q.destination), from, to))
  {
    var payload := Be(from) + Be(to) + more;
    QuoteBytes(q, payload, local, 4);
    WordsAt(payload[..4], 0, from, to, []);
    hide Header4, PureQuote, U16;
  }

  /** A quoted echo request is named by its destination, identifier and sequence number. */
  lemma EchoQuote(q: Ip4, checksum: Word, id: Word, sequence: Word, more: seq<Byte>, local: Address)
    requires Wellformed(q) && q.fragmentOffset == 0 && local == V4(q.source) && 28 + |q.options| <= q.total
    requires q.protocol == 1
    ensures PureQuote(Header4(q) + (IcmpHeader(8, 0, checksum, id, sequence) + more), false, local)
            == Some(EchoError(V4(q.destination), id, sequence))
  {
    var icmp := IcmpHeader(8, 0, checksum, id, sequence);
    QuoteBytes(q, icmp + more, local, 8);
    assert (icmp + more)[..8] == icmp;
    EchoBytes(8, 0, checksum, id, sequence, false);
    hide Header4, PureQuote, EchoOf;
  }

  /** Errors matter when they come in, and when this host sends one to itself. */
  predicate Concerns(direction: Direction, key: Key) {
    direction == Inbound || key.localAddress == key.remoteAddress
  }

  /**
   An ICMP error for a packet this host sent reports what its quote names: destination
   unreachable, time exceeded and parameter problem, as far as the outer length reaches.
   */
  lemma ErrorOf4(h: Ip4, kind: Byte, code: Byte, checksum: Word, a: Word, b: Word, quote: seq<Byte>,
                 direction: Direction, key: Key)
    requires Wellformed(h) && h.protocol == 1 && h.total == 28 + |h.options| + |quote|
    ensures var m := PureIcmp(Header4(h) + (IcmpHeader(kind, code, checksum, a, b) + quote), false, direction, false,
            key);
            var isError := kind == 3 || kind == 11 || kind == 12;
            && m.localError == (isError && direction == Outbound && key.localAddress == key.remoteAddress)
            && m.error == if isError && Concerns(direction, key) then PureQuote(quote, false, key.localAddress)
               else None
  {
    var icmp := IcmpHeader(kind, code, checksum, a, b);
    var d := Header4(h) + (icmp + quote);
    var o := 20 + |h.options|;
    Fields4(h, icmp + quote);
    Headers4(h, icmp + quote, false);
    assert d[o] == d[o..][0] == kind;
    assert d[o + 8..] == d[o..][8..] == quote;
    assert Min(|d|, DeclaredLength(d, false)) == |d| && d[o + 8..|d|] == quote;
    hide Header4, PureHeader, IcmpHeader, EchoOf, PureQuote, Version, HeaderLength4, DeclaredLength;
  }

  /** In IPv6 the errors are the four types of section 3 of RFC 4443. */
  lemma ErrorOf6(h: Ip6, kind: Byte, code: Byte, checksum: Word, a: Word, b: Word, quote: seq<Byte>,
                 direction: Direction, key: Key)
    requires Wellformed6(h) && h.next == 58 && h.length == 8 + |quote|
    ensures var m := PureIcmp(Header6(h) + (IcmpHeader(kind, code, checksum, a, b) + quote), true, direction, false,
            key);
            var isError := kind == 1 || kind == 2 || kind == 3 || kind == 4;
            && m.localError == (isError && direction == Outbound && key.localAddress == key.remoteAddress)
            && m.error == if isError && Concerns(direction, key) then PureQuote(quote, true, key.localAddress) else None
  {
    var icmp := IcmpHeader(kind, code, checksum, a, b);
    var d := Header6(h) + (icmp + quote);
    Fields6(h, icmp + quote);
    assert d[40] == d[40..][0] == kind;
    assert d[48..] == d[40..][8..] == quote;
    assert Min(|d|, DeclaredLength(d, true)) == |d| && d[48..|d|] == quote;
    hide Header6, PureHeader, IcmpHeader, EchoOf, PureQuote, Version, DeclaredLength;
  }
}
