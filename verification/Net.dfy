/**
 Addresses, five-tuples and the redirect ports shared by every other module.

 Protocol numbers, ports and octets are natural numbers; the widths that matter
 are subset types. An address carries its family, as `IpAddress` does.
 */
module Net {

  datatype Option<+T> = None | Some(value: T)

  datatype Result<+T, +E> = Ok(value: T) | Err(error: E)

  type Byte = n: nat | n < 256

  type Octets4 = s: seq<Byte> | |s| == 4 witness [0, 0, 0, 0]

  type Octets16 = s: seq<Byte> | |s| == 16 witness [0, 0, 0, 0, 0, 0, 0, 0, 0, 0, 0, 0, 0, 0, 0, 0]

  datatype Address = V4(v4: Octets4) | V6(v6: Octets16)

  datatype Direction = Outbound | Inbound

  datatype Key = Key(protocol: nat, localAddress: Address, localPort: nat, remoteAddress: Address, remotePort: nat)

  const HOP_BY_HOP := 0
  const ICMP := 1
  const TCP := 6
  const UDP := 17
  const IPV6_ROUTE := 43
  const IPV6_FRAG := 44
  const ICMPV6 := 58
  const IPV6_OPTS := 60

  const PM_DNS_PORT := 53
  const PM_SPN_PORT := 717
  const PM_SPLIT_TUN_PORT := 719

  const LOOPBACK_V4: Octets4 := [127, 0, 0, 1]
  const LOOPBACK_V6: Octets16 := [0, 0, 0, 0, 0, 0, 0, 0, 0, 0, 0, 0, 0, 0, 0, 1]

  predicate IsIpv6(key: Key) {
    key.localAddress.V6?
  }

  predicate SameFamily(key: Key) {
    key.localAddress.V4? == key.remoteAddress.V4?
  }

  predicate IsLoopback(address: Address) {
    match address
    case V4(a) => a[0] == 127
    case V6(a) => a == LOOPBACK_V6
  }

  predicate IsLoopbackLike(key: Key) {
    IsLoopback(key.localAddress) || key.localAddress == key.remoteAddress
  }

  function Reverse(key: Key): Key {
    Key(key.protocol, key.remoteAddress, key.remotePort, key.localAddress, key.localPort)
  }

  /** The index of the connection table: protocol and local port. */
  function Small(key: Key): (nat, nat) {
    (key.protocol, key.localPort)
  }

  predicate IsSpecialPort(port: nat) {
    port == PM_DNS_PORT || port == PM_SPN_PORT || port == PM_SPLIT_TUN_PORT
  }

  /** The redirect scan runs only for these ports, and never when the setting turns them off. */
  predicate IsRedirectPort(port: nat, ignoreSpecialPorts: bool) {
    IsSpecialPort(port) && !ignoreSpecialPorts
  }

  datatype Verdict =
    | Undecided | Undeterminable | Accept | PermanentAccept | Block | PermanentBlock
    | Drop | PermanentDrop | RedirectNameServer | RedirectTunnel | Failed | RedirectSplitTunnel

  /** Whether a connection stored under `own` with this verdict answers to the redirected key `key`. */
  predicate RedirectEquals(own: Key, verdict: Verdict, key: Key) {
    match verdict
    case RedirectNameServer =>
      key.remotePort == PM_DNS_PORT
      && key.remoteAddress.V4? == own.remoteAddress.V4?
      && IsLoopback(key.remoteAddress)
    case RedirectTunnel => key.remotePort == PM_SPN_PORT && key.localAddress == key.remoteAddress
    case RedirectSplitTunnel => key.remotePort == PM_SPLIT_TUN_PORT && key.localAddress == key.remoteAddress
    case _ => false
  }

  datatype RedirectInfo = RedirectInfo(
    localAddress: Address, remoteAddress: Address, remotePort: nat,
    redirectPort: nat, unify: bool, redirectAddress: Address)

  function RedirectOf(own: Key, verdict: Verdict): Option<RedirectInfo> {
    var loopback := if own.localAddress.V6? then V6(LOOPBACK_V6) else V4(LOOPBACK_V4);
    match verdict
    case RedirectNameServer =>
      Some(RedirectInfo(own.localAddress, own.remoteAddress, own.remotePort, PM_DNS_PORT, false, loopback))
    case RedirectTunnel =>
      Some(RedirectInfo(own.localAddress, own.remoteAddress, own.remotePort, PM_SPN_PORT, true, loopback))
    case RedirectSplitTunnel =>
      Some(RedirectInfo(own.localAddress, own.remoteAddress, own.remotePort, PM_SPLIT_TUN_PORT, true, loopback))
    case _ => None
  }

  /** Big-endian value of a run of octets. */
  function BigEndian(s: seq<Byte>): nat {
    if s == [] then 0 else BigEndian(s[..|s| - 1]) * 256 + s[|s| - 1]
  }

  /** Octets of equal length with equal values are equal, so a numeric index key identifies one address. */
  lemma {:induction false} BigEndianInjective(a: seq<Byte>, b: seq<Byte>)
    requires |a| == |b| && BigEndian(a) == BigEndian(b)
    ensures a == b
  {
    if a != [] {
      var x, y := BigEndian(a[..|a| - 1]), BigEndian(b[..|b| - 1]);
      assert x * 256 + a[|a| - 1] == y * 256 + b[|b| - 1];
      assert x == y && a[|a| - 1] == b[|b| - 1];
      BigEndianInjective(a[..|a| - 1], b[..|b| - 1]);
      assert a == a[..|a| - 1] + [a[|a| - 1]];
      assert b == b[..|b| - 1] + [b[|b| - 1]];
    }
  }
}
