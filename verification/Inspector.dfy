/**
 What a packet says, as pure functions of its bytes, and the lazy inspector that must say
 the same through a source whose reads may fail.
 */
module Inspection {
  import opened Net
  import opened Ipv6Walk

  const BASE4 := 20
  const ICMP_HEADER := 8

  datatype Error = Unreadable | UnresolvedHeaders | NeedsReassembly

  datatype Header = Header(protocol: nat, offset: nat, fragment: bool, validFlags: bool, error: Option<Error>)

  const UNREADABLE_HEADER := Header(0, 0, false, false, Some(Unreadable))

  function BaseLength(ipv6: bool): nat {
    if ipv6 then BASE6 else BASE4
  }

  predicate HasPorts(protocol: nat) {
    protocol == TCP || protocol == UDP
  }

  // ---- fields of the base headers -------------------------------------------------------------

  function Version(d: seq<Byte>): nat
    requires |d| >= 1
  {
    d[0] as int / 16
  }

  function HeaderLength4(d: seq<Byte>): nat
    requires |d| >= 1
  {
    d[0] as int % 16 * 4
  }

  predicate MoreFragments(d: seq<Byte>)
    requires |d| >= BASE4
  {
    d[6] as int / 32 % 2 == 1
  }

  function FragmentOffset(d: seq<Byte>): nat
    requires |d| >= BASE4
  {
    d[6] as int % 32 * 256 + d[7]
  }

  function Source(d: seq<Byte>, ipv6: bool): Address
    requires |d| >= BaseLength(ipv6)
  {
    if ipv6 then V6(d[8..24]) else V4(d[12..16])
  }

  function Destination(d: seq<Byte>, ipv6: bool): Address
    requires |d| >= BaseLength(ipv6)
  {
    if ipv6 then V6(d[24..40]) else V4(d[16..20])
  }

  /** The length the IP header declares for the whole packet. */
  function DeclaredLength(d: seq<Byte>, ipv6: bool): nat
    requires |d| >= BaseLength(ipv6)
  {
    if ipv6 then BASE6 + U16(d, 4) else U16(d, 2)
  }

  // ---- the pure parse ----------------------------------------------------------------------------

  function ParseBase(d: seq<Byte>, ipv6: bool, permitFragments: bool): Header
    requires |d| >= BaseLength(ipv6)
  {
    if ipv6 then Header(d[6], BASE6, false, true, None)
    else
      var fragment := FragmentOffset(d) != 0 || MoreFragments(d);
      var length := HeaderLength4(d);
      Header(d[9], if length > BASE4 then length else BASE4, fragment, BASE4 <= length <= 60,
             if permitFragments && fragment then Some(NeedsReassembly) else None)
  }

  predicate HasExtensions(h: Header, ipv6: bool) {
    ipv6 && h.error.None? && IsExtension(h.protocol)
  }

  function AfterWalk(h: Header, w: Headers, permitFragments: bool): Header {
    Header(w.protocol, w.offset, w.fragment, h.validFlags,
           if permitFragments && w.fragment then Some(NeedsReassembly)
           else if !w.resolved then Some(UnresolvedHeaders) else None)
  }

  function PureHeader(d: seq<Byte>, ipv6: bool, permitFragments: bool): Header {
    if |d| < BaseLength(ipv6) then UNREADABLE_HEADER
    else
      var h := ParseBase(d, ipv6, permitFragments);
      if HasExtensions(h, ipv6) then AfterWalk(h, Headers6(d, permitFragments, false), permitFragments) else h
  }

  function Ports(d: seq<Byte>, offset: nat, protocol: nat): (nat, nat) {
    if HasPorts(protocol) && offset + 4 <= |d| then (U16(d, offset), U16(d, offset + 2)) else (0, 0)
  }

  function BuildKey(direction: Direction, protocol: nat, source: Address, destination: Address,
                    ports: (nat, nat)): Key {
    if direction == Outbound then Key(protocol, source, ports.0, destination, ports.1)
    else Key(protocol, destination, ports.1, source, ports.0)
  }

  /** IPv4 keys need four bytes behind the header even for protocols without ports. */
  function KeyLength(ipv6: bool): nat {
    if ipv6 then BASE6 else BASE4 + 4
  }

  function PureKey(d: seq<Byte>, ipv6: bool, direction: Direction, permitFragments: bool): Result<Key, Error> {
    var h := PureHeader(d, ipv6, permitFragments);
    if h.error.Some? then Err(h.error.value)
    else if |d| < KeyLength(ipv6) then Err(Unreadable)
    else Ok(BuildKey(direction, h.protocol, Source(d, ipv6), Destination(d, ipv6), Ports(d, h.offset, h.protocol)))
  }

  predicate IsReset(flags: Byte) {
    flags as int / 4 % 2 == 1
  }

  predicate PureReset(d: seq<Byte>, ipv6: bool, permitFragments: bool) {
    var h := PureHeader(d, ipv6, permitFragments);
    h.error.None? && h.protocol == TCP && h.validFlags && h.offset + 13 < |d| && IsReset(d[h.offset + 13])
  }

  // ---- ICMP ----------------------------------------------------------------------------------------

  datatype Echo = Echo(isRequest: bool, identifier: nat, sequence: nat)

  datatype IcmpError =
    | Transport(protocol: nat, remote: Address, localPort: nat, remotePort: nat)
    | EchoError(remote: Address, identifier: nat, sequence: nat)

  datatype Icmp = Icmp(echo: Option<Echo>, error: Option<IcmpError>, localError: bool)

  const NO_ICMP := Icmp(None, None, false)

  function EchoOf(t: seq<Byte>, ipv6: bool): Option<Echo> {
    if |t| < ICMP_HEADER then None
    else if t[0] == (if ipv6 then 128 else 8) then Some(Echo(true, U16(t, 4), U16(t, 6)))
    else if t[0] == (if ipv6 then 129 else 0) then Some(Echo(false, U16(t, 4), U16(t, 6)))
    else None
  }

  function ErrorOf(protocol: nat, local: Address, remote: Address, t: seq<Byte>): Option<IcmpError> {
    if HasPorts(protocol) then
      if |t| < 4 then None else Some(Transport(protocol, remote, U16(t, 0), U16(t, 2)))
    else if protocol == ICMP || protocol == ICMPV6 then
      if (protocol == ICMPV6) != local.V6? then None
      else
        var echo := EchoOf(t, protocol == ICMPV6);
        if echo.Some? && echo.value.isRequest && t[1] == 0
        then Some(EchoError(remote, echo.value.identifier, echo.value.sequence)) else None
    else None
  }

  function Min(a: nat, b: nat): nat {
    if a < b then a else b
  }

  /** The quoted bytes no longer than the quoted header declares. */
  function Quoted(q: seq<Byte>, ipv6: bool): seq<Byte>
    requires |q| >= BaseLength(ipv6)
  {
    q[..Min(|q|, DeclaredLength(q, ipv6))]
  }

  /** Where the quoted transport header starts, when the quote is the start of a packet this host sent. */
  function QuotedTransport(q: seq<Byte>, ipv6: bool, local: Address): Option<(nat, nat)>
    requires |q| >= BaseLength(ipv6)
  {
    if Version(q) != (if ipv6 then 6 else 4) || Source(q, ipv6) != local then None
    else if ipv6 then
      var w := Headers6(Quoted(q, ipv6), false, false);
      if !w.resolved || w.fragment then None else Some((w.protocol, w.offset))
    else if HeaderLength4(q) < BASE4 || FragmentOffset(q) != 0 then None
    else Some((q[9], HeaderLength4(q)))
  }

  function TransportLength(protocol: nat, ipv6: bool): Option<nat> {
    if HasPorts(protocol) then Some(4)
    else if protocol == (if ipv6 then ICMPV6 else ICMP) then Some(ICMP_HEADER)
    else None
  }

  function PureQuote(q: seq<Byte>, ipv6: bool, local: Address): Option<IcmpError> {
    if |q| < BaseLength(ipv6) then None else
      var at := QuotedTransport(q, ipv6, local);
      if at.None? then None else
        var (protocol, offset) := at.value;
        var n := TransportLength(protocol, ipv6);
        if n.None? || offset + n.value > |Quoted(q, ipv6)| || offset < BaseLength(ipv6) then None
        else ErrorOf(protocol, local, Destination(q, ipv6), q[offset..offset + n.value])
  }

  predicate IsErrorType(t: Byte, ipv6: bool) {
    if ipv6 then 1 <= t <= 4 else t == 3 || t == 11 || t == 12
  }

  /** A well-formed ICMP error whose declared length covers its own header. */
  predicate IsIcmpError(d: seq<Byte>, ipv6: bool, offset: nat)
    requires |d| >= BaseLength(ipv6) && offset + ICMP_HEADER <= |d|
  {
    && Version(d) == (if ipv6 then 6 else 4)
    && (!ipv6 ==> HeaderLength4(d) >= BASE4)
    && IsErrorType(d[offset], ipv6)
    && DeclaredLength(d, ipv6) >= offset + ICMP_HEADER
  }

  /** The fields of an ICMP message at a known offset. */
  function IcmpAt(d: seq<Byte>, ipv6: bool, direction: Direction, key: Key, offset: nat): Icmp
    requires offset >= BaseLength(ipv6) && offset + ICMP_HEADER <= |d|
  {
    var end := offset + ICMP_HEADER;
    var isError := IsIcmpError(d, ipv6, offset);
    var isLocal := isError && direction == Outbound && key.localAddress == key.remoteAddress;
    Icmp(EchoOf(d[offset..end], ipv6),
         if isError && (direction == Inbound || isLocal)
         then PureQuote(d[end..Min(|d|, DeclaredLength(d, ipv6))], ipv6, key.localAddress) else None,
         isLocal)
  }

  function PureIcmp(d: seq<Byte>, ipv6: bool, direction: Direction, permitFragments: bool, key: Key): Icmp {
    var h := PureHeader(d, ipv6, permitFragments);
    if h.error.Some? || h.protocol != (if ipv6 then ICMPV6 else ICMP)
       || h.offset + ICMP_HEADER > |d| || h.offset < BaseLength(ipv6) then NO_ICMP
    else IcmpAt(d, ipv6, direction, key, h.offset)
  }

  // ---- quotes name the key of the packet they quote ---------------------------------------------------

  lemma PrefixSlice(q: seq<Byte>, m: nat, o: nat, n: nat)
    requires o <= n <= m <= |q|
    ensures q[..m][..n] == q[..n] && q[..n][o..n] == q[o..n] && q[..m][o..n] == q[o..n]
  {
  }

  lemma SameBase(q: seq<Byte>, r: seq<Byte>, ipv6: bool)
    requires |q| >= BaseLength(ipv6) && |r| >= BaseLength(ipv6) && q[..BaseLength(ipv6)] == r[..BaseLength(ipv6)]
    ensures Source(q, ipv6) == Source(r, ipv6) && Destination(q, ipv6) == Destination(r, ipv6)
    ensures Version(q) == Version(r) && DeclaredLength(q, ipv6) == DeclaredLength(r, ipv6)
    ensures !ipv6 ==> HeaderLength4(q) == HeaderLength4(r) && FragmentOffset(q) == FragmentOffset(r) && q[9] == r[9]
  {
    hide U16, Version, HeaderLength4, FragmentOffset;
    var b := BaseLength(ipv6);
    assert forall i :: 0 <= i < b ==> q[..b][i] == q[i] && r[..b][i] == r[i];
    FieldsOf(q, q[..b], ipv6);
    FieldsOf(r, r[..b], ipv6);
  }

  lemma FieldsOf(q: seq<Byte>, b: seq<Byte>, ipv6: bool)
    requires b <= q && |b| >= BaseLength(ipv6)
    ensures Source(q, ipv6) == Source(b, ipv6) && Destination(q, ipv6) == Destination(b, ipv6)
    ensures Version(q) == Version(b) && DeclaredLength(q, ipv6) == DeclaredLength(b, ipv6)
    ensures !ipv6 ==> HeaderLength4(q) == HeaderLength4(b) && FragmentOffset(q) == FragmentOffset(b) && q[9] == b[9]
  {
  }

  /** A quote tells nothing that lies beyond the length its own header declares. */
  lemma QuoteWithinDeclared(q: seq<Byte>, r: seq<Byte>, ipv6: bool, local: Address)
    requires |q| >= BaseLength(ipv6) && |r| >= BaseLength(ipv6)
    requires q[..BaseLength(ipv6)] == r[..BaseLength(ipv6)] && Quoted(q, ipv6) == Quoted(r, ipv6)
    ensures PureQuote(q, ipv6, local) == PureQuote(r, ipv6, local)
  {
    hide Headers6, U16, Version, HeaderLength4, FragmentOffset, EchoOf, ErrorOf;
    var b := BaseLength(ipv6);
    SameBase(q, r, ipv6);
    var at := QuotedTransport(q, ipv6, local);
    assert at == QuotedTransport(r, ipv6, local);
    if at.Some? {
      var (protocol, offset) := at.value;
      var n := TransportLength(protocol, ipv6);
      if n.Some? && offset + n.value <= |Quoted(q, ipv6)| && offset >= b {
        PrefixSlice(q, |Quoted(q, ipv6)|, offset, offset + n.value);
        PrefixSlice(r, |Quoted(r, ipv6)|, offset, offset + n.value);
      }
    }
  }

  lemma SliceOfQuoted(q: seq<Byte>, ipv6: bool)
    requires |q| >= BaseLength(ipv6) && |Quoted(q, ipv6)| >= BaseLength(ipv6)
    ensures var b := Quoted(q, ipv6);
            && Source(b, ipv6) == Source(q, ipv6) && Destination(b, ipv6) == Destination(q, ipv6)
            && b[0] == q[0] && b[6] == q[6] && b[7] == q[7] && b[9] == q[9]
  {
  }

  lemma HeaderOfQuote(q: seq<Byte>, ipv6: bool, local: Address, permitFragments: bool)
    requires |q| >= BaseLength(ipv6) && |Quoted(q, ipv6)| >= BaseLength(ipv6) && QuotedTransport(q, ipv6, local).Some?
    ensures var h := PureHeader(Quoted(q, ipv6), ipv6, permitFragments);
            && (h.error.None? <==> !(permitFragments && !ipv6 && MoreFragments(q)))
            && (h.error.None? ==> (h.protocol, h.offset) == QuotedTransport(q, ipv6, local).value)
            && (h.error.Some? ==> h.error.value == NeedsReassembly)
  {
    SliceOfQuoted(q, ipv6);
    if ipv6 {
      var b := Quoted(q, ipv6);
      ChainWithoutFragments(b, Base(b), MAX_EXTENSIONS, false);
    }
  }

  lemma SameWords(q: seq<Byte>, b: seq<Byte>, offset: nat)
    requires b <= q && offset + 4 <= |b|
    ensures U16(q[offset..offset + 4], 0) == U16(b, offset) && U16(q[offset..offset + 4], 2) == U16(b, offset + 2)
  {
  }

  /**
   An accepted transport quote, joined with the local address, is the key the quoted
   bytes have as an outbound packet; the one exception is the first fragment of an IPv4
   packet, whose key an inspector that leaves fragments to reassembly does not give.
   */
  lemma QuoteNamesKey(q: seq<Byte>, ipv6: bool, local: Address, permitFragments: bool)
    requires PureQuote(q, ipv6, local).Some? && PureQuote(q, ipv6, local).value.Transport?
    ensures |q| >= BaseLength(ipv6)
    ensures var e := PureQuote(q, ipv6, local).value;
            PureKey(Quoted(q, ipv6), ipv6, Outbound, permitFragments)
            == if permitFragments && !ipv6 && MoreFragments(q) then Err(NeedsReassembly)
               else Ok(Key(e.protocol, local, e.localPort, e.remote, e.remotePort))
  {
    var (protocol, offset) := QuotedTransport(q, ipv6, local).value;
    assert HasPorts(protocol);
    SliceOfQuoted(q, ipv6);
    HeaderOfQuote(q, ipv6, local, permitFragments);
    SameWords(q, Quoted(q, ipv6), offset);
  }

  /** Such a quote exists: the start of a fragmented TCP packet, quoted with its ports. */
  lemma FirstFragmentQuote() returns (q: seq<Byte>, local: Address)
    ensures PureQuote(q, false, local).Some? && PureQuote(q, false, local).value.Transport? && |q| >= BASE4
    ensures PureKey(Quoted(q, false), false, Outbound, true) == Err(NeedsReassembly)
    ensures PureKey(Quoted(q, false), false, Outbound, false).Ok?
  {
    q := [0x45, 0, 0, 24, 0, 0, 0x20, 0, 64, 6, 0, 0, 10, 0, 0, 2, 8, 8, 8, 8, 19, 136, 0, 80];
    local := V4([10, 0, 0, 2]);
    assert DeclaredLength(q, false) == 24 && Quoted(q, false) == q;
    assert Source(q, false) == local && HeaderLength4(q) == 20 && FragmentOffset(q) == 0 && MoreFragments(q);
    assert QuotedTransport(q, false, local) == Some((TCP, 20));
    QuoteNamesKey(q, false, local, true);
    QuoteNamesKey(q, false, local, false);
  }
}
