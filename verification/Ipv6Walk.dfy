/**
 Packet sources that may fail, and the walk over IPv6 extension headers (section 4 of
 RFC 8200).
 */
module Ipv6Walk {
  import opened Net

  const BASE6 := 40
  const MAX_EXTENSIONS := 8
  const MAX_OFFSET := 16424

  function U16(d: seq<Byte>, i: nat): nat
    requires i + 2 <= |d|
  {
    d[i] as int * 256 + d[i + 1]
  }

  // ---- a source whose reads may fail --------------------------------------------------------

  /** Reads fail as the schedule says, but never return other bytes than the packet's. */
  class Reader {
    const data: seq<Byte>
    var schedule: seq<bool>
    ghost var failures: nat

    constructor (data: seq<Byte>, schedule: seq<bool>)
      ensures this.data == data && this.schedule == schedule && failures == 0
    {
      this.data := data;
      this.schedule := schedule;
      failures := 0;
    }

    /** The first `length` bytes of the window between `start` and `end`. */
    method Prefix(start: nat, end: nat, length: nat) returns (r: Option<seq<Byte>>)
      requires start <= end <= |data|
      modifies this
      ensures r.Some? ==> start + length <= end && r.value == data[start..end][..length]
      ensures r.None? && start + length <= end ==> failures > old(failures)
      ensures failures >= old(failures)
    {
      if start + length > end {
        return None;
      }
      var fails := schedule != [] && schedule[0];
      schedule := if schedule == [] then [] else schedule[1..];
      if fails {
        failures := failures + 1;
        return None;
      }
      return Some(data[start..start + length]);
    }
  }

  // ---- the chain -------------------------------------------------------------------------------

  datatype Headers = Headers(protocol: nat, offset: nat, fragment: bool, activeRouting: bool, resolved: bool)

  predicate IsOptions(protocol: nat) {
    protocol == HOP_BY_HOP || protocol == IPV6_ROUTE || protocol == IPV6_OPTS
  }

  predicate IsExtension(protocol: nat) {
    protocol == IPV6_FRAG || IsOptions(protocol)
  }

  /** A fragment offset or the more-fragments flag: everything in the field but its reserved bits. */
  predicate IsFragmentField(v: nat) {
    v / 8 != 0 || v % 2 != 0
  }

  lemma FragmentMask(v: bv16)
    ensures v & 0xfff9 != 0 <==> v / 8 != 0 || v % 2 != 0
  {
  }

  /** The length in bytes of the extension header at an offset, when all of it is present. */
  function ExtensionLength(d: seq<Byte>, protocol: nat, offset: nat): Option<nat> {
    if protocol == IPV6_FRAG then (if offset + 8 <= |d| then Some(8) else None)
    else if offset + 2 > |d| then None
    else
      var n := (d[offset + 1] as int + 1) * 8;
      if offset + n <= |d| then Some(n) else None
  }

  lemma LengthBound(d: seq<Byte>, protocol: nat, offset: nat)
    ensures var n := ExtensionLength(d, protocol, offset);
            n.Some? ==> 8 <= n.value <= 2048 && offset + n.value <= |d|
  {
  }

  /** One more header was followed. */
  function Follow(d: seq<Byte>, h: Headers, inspectRouting: bool): Headers
    requires ExtensionLength(d, h.protocol, h.offset).Some?
  {
    LengthBound(d, h.protocol, h.offset);
    Headers(d[h.offset],
            h.offset + ExtensionLength(d, h.protocol, h.offset).value,
            h.fragment || (h.protocol == IPV6_FRAG && IsFragmentField(U16(d, h.offset + 2))),
            h.activeRouting || (inspectRouting && h.protocol == IPV6_ROUTE && d[h.offset + 3] != 0),
            false)
  }

  predicate StopsHere(d: seq<Byte>, h: Headers, stopAtFragment: bool)
    requires ExtensionLength(d, h.protocol, h.offset).Some?
  {
    stopAtFragment && h.protocol == IPV6_FRAG && IsFragmentField(U16(d, h.offset + 2))
  }

  /** Follows at most `left` extension headers. */
  function Chain(d: seq<Byte>, h: Headers, left: nat, stopAtFragment: bool, inspectRouting: bool): Headers
    decreases left
  {
    if !IsExtension(h.protocol) then h.(resolved := true)
    else if left == 0 || ExtensionLength(d, h.protocol, h.offset).None? then h
    else if StopsHere(d, h, stopAtFragment) then Follow(d, h, inspectRouting)
    else Chain(d, Follow(d, h, inspectRouting), left - 1, stopAtFragment, inspectRouting)
  }

  const NOWHERE := Headers(0, BASE6, false, false, false)

  function Base(d: seq<Byte>): Headers
    requires |d| >= BASE6
  {
    Headers(d[6], BASE6, false, false, false)
  }

  function Headers6(d: seq<Byte>, stopAtFragment: bool, inspectRouting: bool): Headers {
    if |d| < BASE6 then NOWHERE else Chain(d, Base(d), MAX_EXTENSIONS, stopAtFragment, inspectRouting)
  }

  // ---- bounds and stability ----------------------------------------------------------------------

  lemma {:induction false} ChainBounds(d: seq<Byte>, h: Headers, left: nat, stop: bool, inspect: bool)
    requires h.offset <= |d|
    ensures h.offset <= Chain(d, h, left, stop, inspect).offset <= |d|
    ensures Chain(d, h, left, stop, inspect).offset <= h.offset + 2048 * left
    decreases left
  {
    LengthBound(d, h.protocol, h.offset);
    if IsExtension(h.protocol) && left > 0 && ExtensionLength(d, h.protocol, h.offset).Some? && !StopsHere(d, h, stop) {
      ChainBounds(d, Follow(d, h, inspect), left - 1, stop, inspect);
    }
  }

  /** The walk stays inside the packet and its offset fits the cached sixteen bits. */
  lemma OffsetFits(d: seq<Byte>, stop: bool, inspect: bool)
    ensures Headers6(d, stop, inspect).offset <= MAX_OFFSET < 65536
    ensures |d| >= BASE6 ==> BASE6 <= Headers6(d, stop, inspect).offset <= |d|
  {
    if |d| >= BASE6 {
      ChainBounds(d, Base(d), MAX_EXTENSIONS, stop, inspect);
    }
  }

  lemma {:induction false} ChainStable(d: seq<Byte>, e: seq<Byte>, h: Headers, left: nat, stop: bool, inspect: bool)
    requires d <= e && !h.resolved
    requires var r := Chain(d, h, left, stop, inspect); r.resolved || (stop && r.fragment && !h.fragment)
    ensures Chain(e, h, left, stop, inspect) == Chain(d, h, left, stop, inspect)
    decreases left
  {
    if IsExtension(h.protocol) && left > 0 && ExtensionLength(d, h.protocol, h.offset).Some? {
      LengthBound(d, h.protocol, h.offset);
      assert ExtensionLength(e, h.protocol, h.offset) == ExtensionLength(d, h.protocol, h.offset);
      assert Follow(e, h, inspect) == Follow(d, h, inspect);
      if !StopsHere(d, h, stop) {
        ChainStable(d, e, Follow(d, h, inspect), left - 1, stop, inspect);
      }
    }
  }

  /** What a prefix settles, every longer packet keeps. */
  lemma PrefixStable(d: seq<Byte>, e: seq<Byte>, stop: bool, inspect: bool)
    requires d <= e
    requires var r := Headers6(d, stop, inspect); r.resolved || (stop && r.fragment)
    ensures Headers6(e, stop, inspect) == Headers6(d, stop, inspect)
  {
    ChainStable(d, e, Base(d), MAX_EXTENSIONS, stop, inspect);
  }

  lemma {:induction false} ChainWithoutFragments(d: seq<Byte>, h: Headers, left: nat, inspect: bool)
    requires !Chain(d, h, left, false, inspect).fragment
    ensures Chain(d, h, left, true, inspect) == Chain(d, h, left, false, inspect) && !h.fragment
    decreases left
  {
    if IsExtension(h.protocol) && left > 0 && ExtensionLength(d, h.protocol, h.offset).Some? {
      ChainWithoutFragments(d, Follow(d, h, inspect), left - 1, inspect);
    }
  }

  // ---- the declarative reading of section 4 of RFC 8200 --------------------------------------------

  /**
   Extension headers of the given lengths lie one behind the other from `offset`, each
   named by the Next Header field before it, and an upper-layer protocol follows.
   */
  ghost predicate Laid(d: seq<Byte>, protocol: nat, offset: nat, lengths: seq<nat>, upper: nat, end: nat)
    decreases |lengths|
  {
    if lengths == [] then protocol == upper && !IsExtension(upper) && end == offset
    else
      && IsExtension(protocol) && lengths[0] >= 8 && offset + lengths[0] <= |d|
      && lengths[0] == (if protocol == IPV6_FRAG then 8 else 8 + 8 * d[offset + 1] as int)
      && Laid(d, d[offset], offset + lengths[0], lengths[1..], upper, end)
  }

  /** The chain crosses a header of a real fragment. */
  ghost predicate Fragmented(d: seq<Byte>, protocol: nat, offset: nat, lengths: seq<nat>)
    decreases |lengths|
  {
    && lengths != [] && lengths[0] >= 8 && offset + lengths[0] <= |d|
    && ((protocol == IPV6_FRAG && IsFragmentField(U16(d, offset + 2)))
        || Fragmented(d, d[offset], offset + lengths[0], lengths[1..]))
  }

  /** The chain crosses a routing header with segments left: the packet is still on its way. */
  ghost predicate RoutedOn(d: seq<Byte>, protocol: nat, offset: nat, lengths: seq<nat>)
    decreases |lengths|
  {
    && lengths != [] && lengths[0] >= 8 && offset + lengths[0] <= |d|
    && ((protocol == IPV6_ROUTE && d[offset + 3] > 0) || RoutedOn(d, d[offset], offset + lengths[0], lengths[1..]))
  }

  lemma {:induction false} ChainFollowsLayout(d: seq<Byte>, h: Headers, left: nat, lengths: seq<nat>, upper: nat,
                                              end: nat, inspect: bool)
    requires |lengths| <= left && Laid(d, h.protocol, h.offset, lengths, upper, end)
    ensures var r := Chain(d, h, left, false, inspect);
            && r.resolved && r.protocol == upper && r.offset == end
            && r.fragment == (h.fragment || Fragmented(d, h.protocol, h.offset, lengths))
            && r.activeRouting == (h.activeRouting || (inspect && RoutedOn(d, h.protocol, h.offset, lengths)))
    decreases left
  {
    if lengths != [] {
      ChainFollowsLayout(d, Follow(d, h, inspect), left - 1, lengths[1..], upper, end, inspect);
    }
  }

  lemma {:induction false} LayoutOfChain(d: seq<Byte>, h: Headers, left: nat, inspect: bool) returns (lengths: seq<nat>)
    requires Chain(d, h, left, false, inspect).resolved && !h.resolved
    ensures |lengths| <= left
    ensures var r := Chain(d, h, left, false, inspect); Laid(d, h.protocol, h.offset, lengths, r.protocol, r.offset)
    decreases left
  {
    if IsExtension(h.protocol) {
      LengthBound(d, h.protocol, h.offset);
      var rest := LayoutOfChain(d, Follow(d, h, inspect), left - 1, inspect);
      lengths := [ExtensionLength(d, h.protocol, h.offset).value] + rest;
      assert lengths[1..] == rest;
    } else {
      lengths := [];
    }
  }

  ghost predicate ChainOf(d: seq<Byte>, lengths: seq<nat>, upper: nat, end: nat) {
    |d| >= BASE6 && |lengths| <= MAX_EXTENSIONS && Laid(d, d[6], BASE6, lengths, upper, end)
  }

  /** The walk resolves exactly the packets with at most eight extension headers, to what follows them. */
  lemma WalkIsLayout(d: seq<Byte>, inspect: bool)
    ensures Headers6(d, false, inspect).resolved <==> exists lengths, upper, end :: ChainOf(d, lengths, upper, end)
    ensures forall lengths, upper, end :: ChainOf(d, lengths, upper, end) ==>
              var r := Headers6(d, false, inspect);
              && r.protocol == upper && r.offset == end && r.fragment == Fragmented(d, d[6], BASE6, lengths)
              && r.activeRouting == (inspect && RoutedOn(d, d[6], BASE6, lengths))
  {
    forall lengths, upper, end | ChainOf(d, lengths, upper, end)
      ensures var r := Headers6(d, false, inspect);
              && r.resolved && r.protocol == upper && r.offset == end
              && r.fragment == Fragmented(d, d[6], BASE6, lengths)
              && r.activeRouting == (inspect && RoutedOn(d, d[6], BASE6, lengths))
    {
      ChainFollowsLayout(d, Base(d), MAX_EXTENSIONS, lengths, upper, end, inspect);
    }
    if Headers6(d, false, inspect).resolved {
      var r := Headers6(d, false, inspect);
      var lengths := LayoutOfChain(d, Base(d), MAX_EXTENSIONS, inspect);
      assert ChainOf(d, lengths, r.protocol, r.offset);
    }
  }

  // ---- the loop --------------------------------------------------------------------------------------

  function Plain(h: Headers): Headers {
    h.(activeRouting := false)
  }

  lemma {:induction false} RoutingIsSeparate(d: seq<Byte>, h: Headers, active: bool, left: nat, stop: bool,
                                             inspect: bool)
    ensures Plain(Chain(d, h.(activeRouting := active), left, stop, inspect)) == Plain(Chain(d, h, left, stop, inspect))
    decreases left
  {
    var k := h.(activeRouting := active);
    if IsExtension(h.protocol) && left > 0 && ExtensionLength(d, h.protocol, h.offset).Some? && !StopsHere(d, h, stop) {
      var next := Follow(d, h, inspect);
      assert Follow(d, k, inspect) == next.(activeRouting := Follow(d, k, inspect).activeRouting);
      RoutingIsSeparate(d, next, Follow(d, k, inspect).activeRouting, left - 1, stop, inspect);
    }
  }

  /** Behind one more header the rest of the chain is still to be followed, unless a fragment stops the walk. */
  lemma ChainStep(d: seq<Byte>, h: Headers, next: Headers, left: nat, stop: bool, inspect: bool)
    requires IsExtension(h.protocol) && ExtensionLength(d, h.protocol, h.offset).Some? && !h.resolved
             && (stop ==> !h.fragment)
    requires Plain(next) == Plain(Follow(d, h, inspect))
    ensures var c := Chain(d, h, left + 1, stop, inspect);
            if stop && next.fragment
            then Plain(c) == Plain(next) && (next == Follow(d, h, inspect) ==> c == next)
            else Plain(c) == Plain(Chain(d, next, left, stop, inspect))
                 && (next == Follow(d, h, inspect) ==> c == Chain(d, next, left, stop, inspect))
    ensures h.offset <= next.offset <= |d| && next.offset <= h.offset + 2048 && !next.resolved
  {
    LengthBound(d, h.protocol, h.offset);
    var follow := Follow(d, h, inspect);
    assert next == follow.(activeRouting := next.activeRouting);
    RoutingIsSeparate(d, follow, next.activeRouting, left, stop, inspect);
  }

  /** Reads the extension header at the current offset and moves behind it; on any failed read nothing moves. */
  method Advance(r: Reader, start: nat, end: nat, h: Headers, inspect: bool) returns (moved: bool, next: Headers)
    requires start <= end <= |r.data| && IsExtension(h.protocol)
    modifies r
    ensures r.failures >= old(r.failures)
    ensures var w := r.data[start..end];
            && (moved ==> ExtensionLength(w, h.protocol, h.offset).Some? && Plain(next) == Plain(Follow(w, h, inspect)))
            && (moved && r.failures == old(r.failures) ==> next == Follow(w, h, inspect))
            && (!moved ==>
                  next == h && (r.failures > old(r.failures) || ExtensionLength(w, h.protocol, h.offset).None?))
  {
    ghost var w := r.data[start..end];
    moved, next := false, h;
    if h.protocol == IPV6_FRAG {
      if h.offset + 8 > end - start {
        return;
      }
      var prefix := r.Prefix(start, end, h.offset + 4);
      if prefix.None? {
        return;
      }
      assert prefix.value == w[..h.offset + 4];
      var bits := U16(prefix.value, h.offset + 2);
      var fragment := h.fragment || IsFragmentField(bits);
      return true, Headers(prefix.value[h.offset], h.offset + 8, fragment, h.activeRouting, false);
    }
    var prefix := r.Prefix(start, end, h.offset + 2);
    if prefix.None? {
      return;
    }
    assert prefix.value == w[..h.offset + 2];
    var length := (prefix.value[h.offset + 1] as int + 1) * 8;
    if h.offset + length > end - start {
      return;
    }
    var active := h.activeRouting;
    if inspect && h.protocol == IPV6_ROUTE {
      var more := r.Prefix(start, end, h.offset + 4);
      active := active || (more.Some? && more.value[h.offset + 3] != 0);
    }
    return true, Headers(prefix.value[h.offset], h.offset + length, h.fragment, active, false);
  }

  /**
   A result as the walk may give it: all that the packet says if no read failed, else what it
   resolved or stopped at.
   */
  ghost predicate Walked(h: Headers, spec: Headers, stop: bool, exact: bool) {
    && (exact ==> h == spec)
    && (h.resolved || (stop && h.fragment) ==> Plain(h) == Plain(spec))
    && h.offset <= MAX_OFFSET
  }

  /** The walk has come to `h`, with the rest of the chain to follow. */
  ghost predicate OnWay(d: seq<Byte>, h: Headers, left: nat, stop: bool, inspect: bool, spec: Headers, exact: bool) {
    && left <= MAX_EXTENSIONS && h.offset <= |d| && h.offset <= BASE6 + 2048 * (MAX_EXTENSIONS - left)
    && !h.resolved && (stop ==> !h.fragment)
    && (exact ==> Chain(d, h, left, stop, inspect) == spec)
    && Plain(Chain(d, h, left, stop, inspect)) == Plain(spec)
  }

  lemma WayStarts(d: seq<Byte>, stop: bool, inspect: bool, exact: bool)
    ensures var spec := Headers6(d, stop, inspect);
            if |d| < BASE6 then spec == NOWHERE
            else OnWay(d, Headers(d[6], BASE6, false, false, false), MAX_EXTENSIONS, stop, inspect, spec, exact)
  {
  }

  lemma WayEnds(d: seq<Byte>, h: Headers, left: nat, stop: bool, inspect: bool, spec: Headers, exact: bool)
    requires OnWay(d, h, left, stop, inspect, spec, exact)
    ensures !IsExtension(h.protocol) ==> Walked(h.(resolved := true), spec, stop, exact)
    ensures IsExtension(h.protocol) && (left == 0 || ExtensionLength(d, h.protocol, h.offset).None? || !exact) ==>
              Walked(h, spec, stop, exact)
  {
  }

  lemma WayGoesOn(d: seq<Byte>, h: Headers, next: Headers, left: nat, stop: bool, inspect: bool, spec: Headers,
                  exact: bool)
    requires OnWay(d, h, left + 1, stop, inspect, spec, exact)
    requires IsExtension(h.protocol) && ExtensionLength(d, h.protocol, h.offset).Some?
    requires Plain(next) == Plain(Follow(d, h, inspect)) && (exact ==> next == Follow(d, h, inspect))
    ensures if stop && next.fragment then Walked(next, spec, stop, exact)
            else OnWay(d, next, left, stop, inspect, spec, exact)
  {
    hide Chain;
    ChainStep(d, h, next, left, stop, inspect);
  }

  lemma WayWeakens(d: seq<Byte>, h: Headers, left: nat, stop: bool, inspect: bool, spec: Headers, exact: bool,
                   less: bool)
    requires OnWay(d, h, left, stop, inspect, spec, exact) && (less ==> exact)
    ensures OnWay(d, h, left, stop, inspect, spec, less)
  {
  }

  /**
   The walk over a source that may fail: what it resolves, or stops at as a fragment, is
   what the packet says; if no read of it fails it is all that the packet says.
   */
  method Walk(r: Reader, start: nat, end: nat, stop: bool, inspect: bool) returns (h: Headers)
    requires start <= end <= |r.data|
    modifies r
    ensures r.failures >= old(r.failures)
    ensures var spec := Headers6(r.data[start..end], stop, inspect);
            && (r.failures == old(r.failures) ==> h == spec)
            && (h.resolved || (stop && h.fragment) ==> Plain(h) == Plain(spec))
    ensures h.offset <= MAX_OFFSET
  {
    hide Chain, Follow, ExtensionLength, Headers6, OnWay;
    ghost var w := r.data[start..end];
    ghost var spec := Headers6(w, stop, inspect);
    WayStarts(w, stop, inspect, true);
    WayStarts(w, stop, inspect, false);
    var base := r.Prefix(start, end, BASE6);
    if base.None? {
      return NOWHERE;
    }
    h := Headers(base.value[6], BASE6, false, false, false);
    var count := 0;
    while IsExtension(h.protocol)
      invariant 0 <= count <= MAX_EXTENSIONS && r.failures >= old(r.failures)
      invariant OnWay(w, h, MAX_EXTENSIONS - count, stop, inspect, spec, r.failures == old(r.failures))
      decreases MAX_EXTENSIONS - count
    {
      ghost var exact := r.failures == old(r.failures);
      if count >= MAX_EXTENSIONS {
        WayEnds(w, h, 0, stop, inspect, spec, exact);
        return;
      }
      count := count + 1;
      var moved, next := Advance(r, start, end, h, inspect);
      WayWeakens(w, h, MAX_EXTENSIONS - count + 1, stop, inspect, spec, exact, r.failures == old(r.failures));
      if !moved {
        WayEnds(w, h, MAX_EXTENSIONS - count + 1, stop, inspect, spec, r.failures == old(r.failures));
        return;
      }
      WayGoesOn(w, h, next, MAX_EXTENSIONS - count, stop, inspect, spec, r.failures == old(r.failures));
      h := next;
      if stop && h.fragment {
        return;
      }
    }
    WayEnds(w, h, MAX_EXTENSIONS - count, stop, inspect, spec, r.failures == old(r.failures));
    h := h.(resolved := true);
  }
}
