/**
 The inspector of one packet: header, key, TCP reset and ICMP fields are read on demand and
 cached, through a source that may fail at any read.
 */
module LazyInspection {
  import opened Net
  import opened Ipv6Walk
  import opened Inspection

  /** Errors that a failed read can cause; any other result is a statement about the packet. */
  predicate MayBeSpurious(error: Option<Error>) {
    error == Some(Unreadable) || error == Some(UnresolvedHeaders)
  }

  /** A cached header is the packet's own unless it reports an unreadable one after a failed read. */
  ghost predicate HeaderOk(h: Header, d: seq<Byte>, ipv6: bool, permitFragments: bool, failed: bool) {
    !MayBeSpurious(h.error) || !failed ==> h == PureHeader(d, ipv6, permitFragments)
  }

  ghost predicate KeyOk(r: Result<Key, Error>, d: seq<Byte>, ipv6: bool, direction: Direction, permitFragments: bool,
                        failed: bool) {
    r.Ok? || r.error == NeedsReassembly || !failed ==> r == PureKey(d, ipv6, direction, permitFragments)
  }

  /** The base header can be parsed from any prefix that contains it. */
  lemma BaseFromPrefix(d: seq<Byte>, n: nat, ipv6: bool, permitFragments: bool)
    requires BaseLength(ipv6) <= n <= |d|
    ensures ParseBase(d[..n], ipv6, permitFragments) == ParseBase(d, ipv6, permitFragments)
    ensures Source(d[..n], ipv6) == Source(d, ipv6) && Destination(d[..n], ipv6) == Destination(d, ipv6)
    ensures DeclaredLength(d[..n], ipv6) == DeclaredLength(d, ipv6) && Version(d[..n]) == Version(d)
    ensures !ipv6 ==> HeaderLength4(d[..n]) == HeaderLength4(d) && FragmentOffset(d[..n]) == FragmentOffset(d)
  {
  }

  lemma PortsFromPrefix(d: seq<Byte>, n: nat, offset: nat, protocol: nat)
    requires offset + 4 <= n <= |d|
    ensures Ports(d[..n], offset, protocol) == Ports(d, offset, protocol)
  {
  }

  lemma KeyPieces(d: seq<Byte>, ipv6: bool, direction: Direction, permitFragments: bool, h: Header)
    requires h == PureHeader(d, ipv6, permitFragments) && h.error.None? && |d| >= KeyLength(ipv6)
    ensures PureKey(d, ipv6, direction, permitFragments)
            == Ok(BuildKey(direction, h.protocol, Source(d, ipv6), Destination(d, ipv6),
                           Ports(d, h.offset, h.protocol)))
  {
  }

  /** Without extension headers the base header is the header, and its error the key's. */
  lemma BaseIsHeader(d: seq<Byte>, ipv6: bool, direction: Direction, permitFragments: bool)
    requires |d| >= BaseLength(ipv6)
    ensures var h := ParseBase(d, ipv6, permitFragments);
            && (!HasExtensions(h, ipv6) ==> PureHeader(d, ipv6, permitFragments) == h)
            && (h.error.Some? ==> PureKey(d, ipv6, direction, permitFragments) == Err(h.error.value))
            && (HasPorts(h.protocol) ==> h.offset + 4 >= KeyLength(ipv6))
  {
  }

  lemma IcmpFromPrefix(d: seq<Byte>, ipv6: bool, offset: nat)
    requires offset >= BaseLength(ipv6) && offset + ICMP_HEADER <= |d|
    ensures var p := d[..offset + ICMP_HEADER];
            && IsIcmpError(p, ipv6, offset) == IsIcmpError(d, ipv6, offset)
            && DeclaredLength(p, ipv6) == DeclaredLength(d, ipv6)
            && p[offset..] == d[offset..offset + ICMP_HEADER]
  {
    BaseFromPrefix(d, offset + ICMP_HEADER, ipv6, false);
  }

  lemma QuotedWindow(d: seq<Byte>, start: nat, end: nat, ipv6: bool)
    requires start + BaseLength(ipv6) <= end <= |d|
    ensures var q := d[start..end];
            var n := DeclaredLength(q[..BaseLength(ipv6)], ipv6);
            d[start..Min(end, start + n)] == Quoted(q, ipv6)
  {
    BaseFromPrefix(d[start..end], BaseLength(ipv6), ipv6, false);
  }

  lemma HeaderInside(d: seq<Byte>, ipv6: bool, permitFragments: bool)
    requires PureHeader(d, ipv6, permitFragments).error.None?
    ensures |d| >= BaseLength(ipv6) && PureHeader(d, ipv6, permitFragments).offset >= BaseLength(ipv6)
  {
    OffsetFits(d, permitFragments, false);
  }

  lemma TransportInside(q: seq<Byte>, ipv6: bool, local: Address)
    requires |q| >= BaseLength(ipv6) && QuotedTransport(q, ipv6, local).Some?
    ensures QuotedTransport(q, ipv6, local).value.1 >= BaseLength(ipv6)
  {
    if ipv6 { OffsetFits(Quoted(q, ipv6), false, false); }
  }

  /** The quoted fields can be taken from the part of the quote that was read. */
  lemma QuoteFromPrefix(q: seq<Byte>, ipv6: bool, local: Address, protocol: nat, offset: nat, n: nat)
    requires |q| >= BaseLength(ipv6) && QuotedTransport(q, ipv6, local) == Some((protocol, offset))
    requires TransportLength(protocol, ipv6) == Some(n) && offset + n <= |Quoted(q, ipv6)|
    ensures offset >= BaseLength(ipv6)
    ensures var all := Quoted(q, ipv6)[..offset + n];
            PureQuote(q, ipv6, local) == ErrorOf(protocol, local, Destination(all, ipv6), all[offset..offset + n])
  {
    TransportInside(q, ipv6, local);
    PrefixSlice(q, |Quoted(q, ipv6)|, offset, offset + n);
    BaseFromPrefix(q, offset + n, ipv6, false);
  }

  /** Without a transport header of known length inside the quote there is nothing to report. */
  lemma NoQuote(q: seq<Byte>, ipv6: bool, local: Address)
    requires |q| >= BaseLength(ipv6) ==>
               var at := QuotedTransport(q, ipv6, local);
               at.None? || TransportLength(at.value.0, ipv6).None?
               || at.value.1 + TransportLength(at.value.0, ipv6).value > |Quoted(q, ipv6)|
    ensures PureQuote(q, ipv6, local) == None
  {
  }

  class Inspector {
    const reader: Reader
    const ipv6: bool
    const direction: Direction
    var permitFragments: bool
    var header: Option<Header>
    var reset: Option<bool>
    /** How many reads had failed when nothing was cached last. */
    ghost var since: nat

    /** What is cached can be blamed only on reads that failed since then. */
    ghost predicate Valid()
      reads this, reader
    {
      && since <= reader.failures
      && (header.Some? ==> HeaderOk(header.value, reader.data, ipv6, permitFragments, reader.failures > since))
      && (reset.Some? ==>
            (reset.value || reader.failures == since ==> reset.value == PureReset(reader.data, ipv6, permitFragments)))
    }

    constructor (reader: Reader, ipv6: bool, direction: Direction, permitFragments: bool)
      ensures Valid() && this.reader == reader && this.ipv6 == ipv6 && this.direction == direction
      ensures this.permitFragments == permitFragments && header.None? && reset.None? && since == reader.failures
    {
      this.reader := reader;
      this.ipv6 := ipv6;
      this.direction := direction;
      this.permitFragments := permitFragments;
      header := None;
      reset := None;
      since := reader.failures;
    }

    method Read(length: nat) returns (r: Option<seq<Byte>>)
      modifies reader
      ensures r.Some? ==> length <= |reader.data| && r.value == reader.data[..length]
      ensures r.None? && length <= |reader.data| ==> reader.failures > old(reader.failures)
      ensures reader.failures >= old(reader.failures)
    {
      assert reader.data[0..|reader.data|] == reader.data;
      r := reader.Prefix(0, |reader.data|, length);
    }

    /** Replaces an extension header by what the walk finds behind the chain; the offset is cached in sixteen bits. */
    method Resolve(h: Header) returns (r: Header)
      requires |reader.data| >= BaseLength(ipv6) && h == ParseBase(reader.data, ipv6, permitFragments)
      modifies reader
      ensures reader.failures >= old(reader.failures)
      ensures HeaderOk(r, reader.data, ipv6, permitFragments, reader.failures > old(reader.failures))
    {
      if !HasExtensions(h, ipv6) {
        return h;
      }
      assert reader.data[0..|reader.data|] == reader.data;
      var w := Walk(reader, 0, |reader.data|, permitFragments, false);
      assert w.offset % 65536 == w.offset;
      return AfterWalk(h, w.(offset := w.offset % 65536), permitFragments);
    }

    /** One read with four bytes of lookahead, one without, then the chain. */
    method ReadHeader() returns (h: Header)
      modifies reader, this`header
      ensures reader.failures >= old(reader.failures)
      ensures HeaderOk(h, reader.data, ipv6, permitFragments, reader.failures > old(reader.failures))
              && header == Some(h)
    {
      var base := BaseLength(ipv6);
      var initial := Min(|reader.data|, base + 4);
      var packet := None;
      if initial >= base {
        packet := Read(initial);
      }
      if packet.None? {
        packet := Read(base);
      }
      if packet.None? {
        h := UNREADABLE_HEADER;
      } else {
        BaseFromPrefix(reader.data, |packet.value|, ipv6, permitFragments);
        h := Resolve(ParseBase(packet.value, ipv6, permitFragments));
      }
      header := Some(h);
    }

    method GetHeader() returns (h: Header)
      requires Valid()
      modifies reader, this`header
      ensures Valid() && reader.failures >= old(reader.failures)
      ensures HeaderOk(h, reader.data, ipv6, permitFragments, reader.failures > since)
    {
      if header.Some? {
        return header.value;
      }
      h := ReadHeader();
    }

    /** The key behind a header that has been read: addresses, then ports unless they are not there. */
    method KeyBehind(h: Header, ghost before: nat) returns (r: Result<Key, Error>)
      requires before <= reader.failures && HeaderOk(h, reader.data, ipv6, permitFragments, reader.failures > before)
      modifies reader
      ensures reader.failures >= old(reader.failures)
      ensures KeyOk(r, reader.data, ipv6, direction, permitFragments, reader.failures > before)
    {
      hide PureHeader;
      if h.error.Some? {
        return Err(h.error.value);
      }
      var packet := Read(KeyLength(ipv6));
      if packet.None? {
        return Err(Unreadable);
      }
      BaseFromPrefix(reader.data, KeyLength(ipv6), ipv6, permitFragments);
      KeyPieces(reader.data, ipv6, direction, permitFragments, h);
      var ports := (0, 0);
      if HasPorts(h.protocol) {
        if h.offset + 4 <= |packet.value| {
          PortsFromPrefix(reader.data, KeyLength(ipv6), h.offset, h.protocol);
          ports := Ports(packet.value, h.offset, h.protocol);
        } else if h.offset + 4 <= |reader.data| {
          var more := Read(h.offset + 4);
          if more.None? {
            return Err(Unreadable);
          }
          PortsFromPrefix(reader.data, h.offset + 4, h.offset, h.protocol);
          ports := Ports(more.value, h.offset, h.protocol);
        }
      }
      return Ok(BuildKey(direction, h.protocol, Source(packet.value, ipv6), Destination(packet.value, ipv6), ports));
    }

    /** The header when the lookahead could not be read: the key's mandatory bytes may still recover later. */
    method FallbackHeader() returns (h: Header)
      modifies reader
      ensures reader.failures >= old(reader.failures)
      ensures HeaderOk(h, reader.data, ipv6, permitFragments, reader.failures > old(reader.failures))
    {
      var packet := Read(BaseLength(ipv6));
      if packet.None? {
        return UNREADABLE_HEADER;
      }
      BaseFromPrefix(reader.data, BaseLength(ipv6), ipv6, permitFragments);
      h := Resolve(ParseBase(packet.value, ipv6, permitFragments));
    }

    /** The header and, when the first read holds all the key needs, the key itself. */
    method HeaderOrKey(packet: seq<Byte>) returns (h: Header, r: Option<Result<Key, Error>>)
      requires BaseLength(ipv6) <= |packet| <= |reader.data| && packet == reader.data[..|packet|]
      modifies reader
      ensures reader.failures >= old(reader.failures)
      ensures HeaderOk(h, reader.data, ipv6, permitFragments, reader.failures > old(reader.failures))
      ensures r.Some? ==> KeyOk(r.value, reader.data, ipv6, direction, permitFragments, false)
    {
      hide PureHeader, ParseBase, PureKey, Source, Destination;
      BaseFromPrefix(reader.data, |packet|, ipv6, permitFragments);
      BaseIsHeader(reader.data, ipv6, direction, permitFragments);
      h := ParseBase(packet, ipv6, permitFragments);
      if h.error.Some? {
        return h, Some(Err(h.error.value));
      }
      var keyEnd := if HasPorts(h.protocol) then h.offset + 4 else KeyLength(ipv6);
      if !HasExtensions(h, ipv6) && |packet| >= keyEnd {
        KeyPieces(reader.data, ipv6, direction, permitFragments, h);
        if HasPorts(h.protocol) {
          PortsFromPrefix(reader.data, |packet|, h.offset, h.protocol);
        }
        return h, Some(Ok(BuildKey(direction, h.protocol, Source(packet, ipv6), Destination(packet, ipv6),
                                   Ports(packet, h.offset, h.protocol))));
      }
      h := Resolve(h);
      r := None;
    }

    /** Fast path: the key straight from the first read, when it holds all the key needs. */
    method GetKey() returns (r: Result<Key, Error>)
      requires Valid()
      modifies reader, this`header
      ensures Valid() && reader.failures >= old(reader.failures)
      ensures KeyOk(r, reader.data, ipv6, direction, permitFragments,
                    reader.failures > if old(header).None? then old(reader.failures) else since)
    {
      hide PureHeader, PureKey;
      ghost var before := if header.None? then reader.failures else since;
      if header.None? {
        var base := BaseLength(ipv6);
        var initial := Min(|reader.data|, base + 4);
        var packet := None;
        if initial >= base {
          packet := Read(initial);
        }
        var h, key := UNREADABLE_HEADER, None;
        if packet.Some? {
          h, key := HeaderOrKey(packet.value);
        } else {
          h := FallbackHeader();
        }
        header := Some(h);
        if key.Some? {
          return key.value;
        }
      }
      r := KeyBehind(header.value, before);
    }

    /**
     A second attempt starts from scratch and no longer leaves fragments to reassembly. Reads
     that failed before it do not matter any more.
     */
    method RetryKey() returns (r: Result<Key, Error>)
      requires Valid()
      modifies reader, this`header, this`reset, this`permitFragments, this`since
      ensures Valid() && !permitFragments && since == old(reader.failures)
      ensures KeyOk(r, reader.data, ipv6, direction, false, reader.failures > old(reader.failures))
    {
      permitFragments, header, reset, since := false, None, None, reader.failures;
      r := GetKey();
    }

    method IsTcpReset() returns (b: bool)
      requires Valid()
      modifies reader, this`header, this`reset
      ensures Valid() && reader.failures >= old(reader.failures)
      ensures b || reader.failures == since ==> b == PureReset(reader.data, ipv6, permitFragments)
    {
      hide PureHeader, IsReset;
      if reset.Some? {
        return reset.value;
      }
      var h := GetHeader();
      b := false;
      if h.error.None? && h.protocol == TCP && h.validFlags {
        var packet := Read(h.offset + 14);
        b := packet.Some? && IsReset(packet.value[h.offset + 13]);
      }
      reset := Some(b);
    }

    /** Where the quoted transport header starts; `end` is where both lengths have been respected. */
    method LocateQuote(quoted: seq<Byte>, local: Address, start: nat, end: nat, ghost q: seq<Byte>)
      returns (at: Option<(nat, nat)>)
      requires |q| >= BaseLength(ipv6) && quoted == q[..BaseLength(ipv6)]
      requires start <= end <= |reader.data| && reader.data[start..end] == Quoted(q, ipv6)
      modifies reader
      ensures reader.failures >= old(reader.failures)
      ensures at.Some? || reader.failures == old(reader.failures) ==> at == QuotedTransport(q, ipv6, local)
    {
      BaseFromPrefix(q, BaseLength(ipv6), ipv6, false);
      if Version(quoted) != (if ipv6 then 6 else 4) || Source(quoted, ipv6) != local {
        return None;
      }
      if ipv6 {
        var w := Walk(reader, start, end, false, false);
        if !w.resolved || w.fragment {
          return None;
        }
        return Some((w.protocol, w.offset));
      }
      if HeaderLength4(quoted) < BASE4 || FragmentOffset(quoted) != 0 {
        return None;
      }
      return Some((quoted[9], HeaderLength4(quoted)));
    }

    /** The quoted identity in an ICMP error, read through a window that ends at the outer and the quoted length. */
    method ReadQuote(local: Address, start: nat, outer: nat) returns (r: Option<IcmpError>)
      requires start <= |reader.data| && start <= outer
      modifies reader
      ensures reader.failures >= old(reader.failures)
      ensures r.Some? || reader.failures == old(reader.failures) ==>
              r == PureQuote(reader.data[start..Min(|reader.data|, outer)], ipv6, local)
    {
      hide PureQuote, QuotedTransport, ErrorOf, DeclaredLength, TransportLength;
      var end := Min(|reader.data|, outer);
      ghost var q := reader.data[start..end];
      var base := reader.Prefix(start, end, BaseLength(ipv6));
      if base.None? {
        if reader.failures == old(reader.failures) { NoQuote(q, ipv6, local); }
        return None;
      }
      QuotedWindow(reader.data, start, end, ipv6);
      end := Min(end, start + DeclaredLength(base.value, ipv6));
      var at := LocateQuote(base.value, local, start, end, q);
      if at.None? {
        if reader.failures == old(reader.failures) { NoQuote(q, ipv6, local); }
        return None;
      }
      var (protocol, offset) := at.value;
      var n := TransportLength(protocol, ipv6);
      if n.None? {
        NoQuote(q, ipv6, local);
        return None;
      }
      var all := reader.Prefix(start, end, offset + n.value);
      if all.None? {
        if reader.failures == old(reader.failures) { NoQuote(q, ipv6, local); }
        return None;
      }
      QuoteFromPrefix(q, ipv6, local, protocol, offset, n.value);
      r := ErrorOf(protocol, local, Destination(all.value, ipv6), all.value[offset..offset + n.value]);
    }

    method ReadIcmp(packet: seq<Byte>, offset: nat, key: Key) returns (m: Icmp)
      requires offset >= BaseLength(ipv6) && offset + ICMP_HEADER <= |reader.data|
      requires packet == reader.data[..offset + ICMP_HEADER]
      modifies reader
      ensures reader.failures >= old(reader.failures)
      ensures var spec := IcmpAt(reader.data, ipv6, direction, key, offset);
              && m.echo == spec.echo && m.localError == spec.localError
              && (m.error.Some? || reader.failures == old(reader.failures) ==> m.error == spec.error)
    {
      IcmpFromPrefix(reader.data, ipv6, offset);
      var isError := IsIcmpError(packet, ipv6, offset);
      var isLocal := isError && direction == Outbound && key.localAddress == key.remoteAddress;
      var error := None;
      if isError && (direction == Inbound || isLocal) {
        error := ReadQuote(key.localAddress, offset + ICMP_HEADER, DeclaredLength(packet, ipv6));
      }
      m := Icmp(EchoOf(packet[offset..], ipv6), error, isLocal);
    }

    /** Echo and error fields of an ICMP packet; anything else has none. */
    method GetIcmp(key: Key) returns (m: Icmp)
      requires Valid()
      modifies reader, this`header
      ensures Valid() && reader.failures >= old(reader.failures)
      ensures var spec := PureIcmp(reader.data, ipv6, direction, permitFragments, key);
              && (reader.failures == since ==> m == spec)
              && (m.echo.Some? ==> m.echo == spec.echo)
              && (m.error.Some? ==> m.error == spec.error)
              && (m.localError ==> spec.localError)
    {
      hide PureHeader, IcmpAt;
      var h := GetHeader();
      if h.error.Some? || h.protocol != (if ipv6 then ICMPV6 else ICMP) {
        return NO_ICMP;
      }
      var packet := Read(h.offset + ICMP_HEADER);
      if packet.None? {
        return NO_ICMP;
      }
      HeaderInside(reader.data, ipv6, permitFragments);
      m := ReadIcmp(packet.value, h.offset, key);
    }
  }
}
