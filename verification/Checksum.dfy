/**
 The Internet checksum (RFC 1071) as the packet library computes it: sixteen-bit words
 added in a wide accumulator, carries folded twice, the complement stored.
 */
module Checksum {
  import opened Net

  const WORD := 65536

  /** Big-endian words; an odd last byte is padded with zero. */
  function Sum16(s: seq<Byte>): nat {
    if s == [] then 0
    else if |s| == 1 then s[0] as int * 256
    else s[0] as int * 256 + s[1] + Sum16(s[2..])
  }

  /** Adds the carries back twice, as unsigned 32-bit arithmetic does. */
  function Fold(word: nat): nat {
    var sum := word / WORD + word % WORD;
    (sum / WORD + sum % WORD) % WORD
  }

  /** Packets are short enough for a 32-bit accumulator. */
  lemma {:induction false} SumFits(s: seq<Byte>)
    ensures Sum16(s) <= (|s| + 1) / 2 * 65535
  {
    if |s| > 1 {
      SumFits(s[2..]);
      assert (|s| + 1) / 2 == (|s[2..]| + 1) / 2 + 1;
    }
  }

  lemma Div(a: nat)
    ensures a == a / WORD * WORD + a % WORD && a % WORD < WORD
  {
  }

  /** Folding keeps the value modulo 65535 and gives zero only for zero. */
  lemma FoldMeaning(word: nat) returns (k: nat)
    requires word < 0x1_0000_0000
    ensures Fold(word) <= 65535 && word == Fold(word) + 65535 * k
    ensures Fold(word) == 0 <==> word == 0
  {
    var sum := word / WORD + word % WORD;
    Div(word);
    Div(sum);
    assert word / WORD < WORD;
    assert sum / WORD <= 1;
    k := word / WORD + sum / WORD;
  }

  /** The complement of a folded sum makes the whole sum fold to all ones. */
  lemma ComplementVerifies(sum: nat, stored: nat)
    requires 0 < sum < 0x1_0000_0000 - WORD
    requires stored == 65535 - Fold(sum) || (Fold(sum) == 65535 && stored == 65535)
    ensures Fold(sum + stored) == 65535
  {
    var k := FoldMeaning(sum);
    var m := FoldMeaning(sum + stored);
    assert sum + stored == Fold(sum) + 65535 * k + stored;
    assert exists j: nat :: Fold(sum + stored) == 65535 * j by {
      if stored == 65535 - Fold(sum) {
        assert Fold(sum + stored) == 65535 * (k + 1 - m);
      } else {
        assert Fold(sum + stored) == 65535 * (k + 2 - m);
      }
    }
  }

  /** A big-endian word written at an even place changes the sum by the difference of the words. */
  lemma {:induction false} SumSet(s: seq<Byte>, i: nat, hi: Byte, lo: Byte)
    requires i % 2 == 0 && i + 1 < |s|
    ensures Sum16(s[i := hi][i + 1 := lo]) + (s[i] as int * 256 + s[i + 1]) == Sum16(s) + (hi as int * 256 + lo)
  {
    var t := s[i := hi][i + 1 := lo];
    if i == 0 {
      assert t[2..] == s[2..];
    } else {
      SumSet(s[2..], i - 2, hi, lo);
      assert t[2..] == s[2..][i - 2 := hi][i - 1 := lo];
    }
  }

  function Hi(v: nat): Byte
    requires v < WORD
  {
    v / 256
  }

  function Lo(v: nat): Byte {
    v % 256
  }

  /** Folded sums may be added and folded again: only the total counts. */
  lemma FoldTogether(a: nat, b: nat, c: nat)
    requires a + b + c < 0x1_0000_0000
    ensures Fold(Fold(a) + Fold(b) + Fold(c)) == Fold(a + b + c)
  {
    var i := FoldMeaning(a);
    var j := FoldMeaning(b);
    var k := FoldMeaning(c);
    var m := FoldMeaning(Fold(a) + Fold(b) + Fold(c));
    var n := FoldMeaning(a + b + c);
    SameResidue(Fold(a + b + c), Fold(Fold(a) + Fold(b) + Fold(c)), i + j + k + m - n);
  }

  lemma SameResidue(x: nat, y: nat, d: int)
    requires x <= 65535 && y <= 65535 && x - y == 65535 * d && (x == 0 <==> y == 0)
    ensures x == y
  {
  }

  /** The folded pseudo-header: both addresses, the upper-layer length and the protocol. */
  function Pseudo(source: seq<Byte>, destination: seq<Byte>, protocol: nat, length: nat): nat {
    Fold(Fold(Sum16(source)) + Fold(Sum16(destination)) + Fold(length / WORD + length % WORD + protocol))
  }

  /** The folded sum over pseudo-header and data. */
  function Total(pseudo: nat, data: seq<Byte>): nat {
    Fold(pseudo + Fold(Sum16(data)))
  }

  lemma PseudoNonzero(source: seq<Byte>, destination: seq<Byte>, protocol: nat, length: nat)
    requires |source| <= 16 && |destination| <= 16 && length < 0x1_0000 && 0 < protocol < 256
    ensures 0 < Pseudo(source, destination, protocol, length) <= 65535
  {
    hide Fold, Sum16;
    SumFits(source);
    SumFits(destination);
    var a, b, c := Sum16(source), Sum16(destination), length / WORD + length % WORD + protocol;
    FoldTogether(a, b, c);
    var k := FoldMeaning(a + b + c);
  }

  /** With the field zeroed, the complement written into it makes the total all ones. */
  lemma FilledVerifies(pseudo: nat, data: seq<Byte>, at: nat, stored: nat)
    requires 0 < pseudo <= 65535 && |data| <= 65536 && at % 2 == 0 && at + 1 < |data|
    requires data[at] == 0 && data[at + 1] == 0 && stored < WORD
    requires stored == 65535 - Total(pseudo, data) || (Total(pseudo, data) == 65535 && stored == 65535)
    ensures Total(pseudo, data[at := Hi(stored)][at + 1 := Lo(stored)]) == 65535
  {
    hide Fold;
    var filled := data[at := Hi(stored)][at + 1 := Lo(stored)];
    SumSet(data, at, Hi(stored), Lo(stored));
    assert Sum16(filled) == Sum16(data) + stored;
    SumFits(data);
    FoldTogether(pseudo, Sum16(data), 0);
    FoldTogether(pseudo, Sum16(filled), 0);
    FoldOnce(pseudo);
    ComplementVerifies(pseudo + Sum16(data), stored);
  }

  lemma FoldOnce(v: nat)
    requires v <= 65535
    ensures Fold(v) == v && Fold(0) == 0
  {
  }

  // ---- sums as numbers -------------------------------------------------------------------------------

  lemma {:induction false} SumSnoc(s: seq<Byte>, hi: Byte, lo: Byte)
    requires |s| % 2 == 0
    ensures Sum16(s + [hi, lo]) == Sum16(s) + (hi as int * 256 + lo)
  {
    if s == [] {
      assert s + [hi, lo] == [hi, lo] && [hi, lo][2..] == [];
    } else {
      assert (s + [hi, lo])[2..] == s[2..] + [hi, lo];
      SumSnoc(s[2..], hi, lo);
    }
  }

  lemma BigEndianSnoc(s: seq<Byte>, hi: Byte, lo: Byte)
    ensures BigEndian(s + [hi, lo]) == BigEndian(s) * 65536 + (hi as int * 256 + lo)
  {
    var t := s + [hi, lo];
    assert t[..|t| - 1] == s + [hi] && (s + [hi])[..|s|] == s;
    assert BigEndian(s + [hi]) == BigEndian(s) * 256 + hi;
  }

  /** The sum of the words and the whole run read as one big-endian number differ by a multiple of 65535. */
  lemma {:induction false} SumIsNumber(s: seq<Byte>) returns (k: nat)
    requires |s| % 2 == 0
    ensures BigEndian(s) == Sum16(s) + 65535 * k
  {
    if s == [] {
      k := 0;
    } else {
      var n := |s| - 2;
      var j := SumIsNumber(s[..n]);
      assert s == s[..n] + [s[n], s[n + 1]];
      SumSnoc(s[..n], s[n], s[n + 1]);
      BigEndianSnoc(s[..n], s[n], s[n + 1]);
      k := Sum16(s[..n]) + 65536 * j;
      assert BigEndian(s[..n]) * 65536 == Sum16(s[..n]) + 65535 * k by {
        assert BigEndian(s[..n]) * 65536 == (Sum16(s[..n]) + 65535 * j) * 65536;
      }
    }
  }

  /** What a receiver tests (RFC 1071): the octets, read as one big-endian number, are a multiple of 65535. */
  predicate Verifies(s: seq<Byte>) {
    BigEndian(s) % 65535 == 0
  }

  lemma {:induction false} SumAppend(a: seq<Byte>, b: seq<Byte>)
    requires |a| % 2 == 0
    ensures Sum16(a + b) == Sum16(a) + Sum16(b)
  {
    if a == [] {
      assert a + b == b;
    } else {
      assert (a + b)[2..] == a[2..] + b;
      SumAppend(a[2..], b);
    }
  }

  lemma Multiple(x: int, k: int)
    requires x == 65535 * k
    ensures x % 65535 == 0
  {
  }

  /** A sum that folds to all ones is one that a receiver accepts. */
  lemma AllOnesVerifies(s: seq<Byte>)
    requires |s| % 2 == 0 && Sum16(s) < 0x1_0000_0000 && Fold(Sum16(s)) == 65535
    ensures Verifies(s)
  {
    var k := SumIsNumber(s);
    var m := FoldMeaning(Sum16(s));
    Multiple(BigEndian(s), 1 + m + k);
  }

  /** Octets padded to whole words. */
  function Padded(s: seq<Byte>): seq<Byte> {
    if |s| % 2 == 0 then s else s + [0]
  }

  lemma {:induction false} SumPadded(s: seq<Byte>)
    ensures Sum16(Padded(s)) == Sum16(s)
  {
    if |s| == 1 {
      assert Padded(s)[2..] == [];
    } else if |s| > 1 {
      assert Padded(s)[2..] == Padded(s[2..]);
      SumPadded(s[2..]);
    }
  }

  /** The pseudo-header of section 3.1 of RFC 9293 for IPv4, and of section 8.1 of RFC 8200 for IPv6. */
  function PseudoHeader(source: seq<Byte>, destination: seq<Byte>, protocol: Byte, length: nat): seq<Byte>
    requires length < WORD
  {
    if |source| == 4 then source + destination + [0, protocol, length / 256, length % 256]
    else source + destination + [0, 0, length / 256, length % 256, 0, 0, 0, protocol]
  }

  lemma SumOfFour(a: Byte, b: Byte, c: Byte, d: Byte)
    ensures Sum16([a, b, c, d]) == a as int * 256 + b + (c as int * 256 + d)
  {
    var s: seq<Byte>, t: seq<Byte> := [a, b, c, d], [c, d];
    assert s[2..] == t && t[2..] == [];
    assert Sum16(t) == c as int * 256 + d + Sum16(t[2..]);
  }

  lemma SumOfTail(protocol: Byte, length: nat)
    requires length < WORD
    ensures Sum16([0, protocol, length / 256, length % 256]) == length + protocol
    ensures Sum16([0, 0, length / 256, length % 256, 0, 0, 0, protocol]) == length + protocol
  {
    SumOfFour(0, protocol, length / 256, length % 256);
    SumOfFour(0, 0, length / 256, length % 256);
    SumOfFour(0, 0, 0, protocol);
    var t: seq<Byte> := [0, 0, length / 256, length % 256, 0, 0, 0, protocol];
    assert t == [0, 0, length / 256, length % 256] + [0, 0, 0, protocol];
    SumAppend([0, 0, length / 256, length % 256], [0, 0, 0, protocol]);
  }

  lemma SumOfPseudo(source: seq<Byte>, destination: seq<Byte>, protocol: Byte, length: nat)
    requires length < WORD && |source| == |destination| && (|source| == 4 || |source| == 16)
    ensures Sum16(PseudoHeader(source, destination, protocol, length))
            == Sum16(source) + Sum16(destination) + length + protocol
  {
    SumOfTail(protocol, length);
    var tail: seq<Byte> := if |source| == 4 then [0, protocol, length / 256, length % 256]
                           else [0, 0, length / 256, length % 256, 0, 0, 0, protocol];
    assert PseudoHeader(source, destination, protocol, length) == source + destination + tail;
    SumAppend(source, destination);
    SumAppend(source + destination, tail);
  }

  lemma PseudoIsFold(source: seq<Byte>, destination: seq<Byte>, protocol: Byte, length: nat)
    requires length < WORD && |source| == |destination| && (|source| == 4 || |source| == 16)
    ensures var sum := Sum16(PseudoHeader(source, destination, protocol, length));
            sum < 0x20_0000 && Pseudo(source, destination, protocol, length) == Fold(sum)
  {
    hide Fold, Sum16, PseudoHeader;
    SumOfPseudo(source, destination, protocol, length);
    SumFits(source);
    SumFits(destination);
    assert length / WORD == 0 && length % WORD == length;
    FoldTogether(Sum16(source), Sum16(destination), length + protocol);
  }

  lemma SumBound(data: seq<Byte>)
    requires |data| < WORD
    ensures Sum16(data) <= 32768 * 65535
  {
    SumFits(data);
    assert (|data| + 1) / 2 <= 32768;
  }

  lemma TotalIsFold(sum: nat, data: seq<Byte>)
    requires sum < 0x20_0000 && |data| < WORD
    ensures Total(Fold(sum), data) == Fold(sum + Sum16(data)) && sum + Sum16(data) < 0x1_0000_0000
  {
    SumBound(data);
    hide Fold;
    FoldTogether(sum, Sum16(data), 0);
    FoldOnce(0);
  }

  lemma PartsVerify(head: seq<Byte>, body: seq<Byte>)
    requires |head| % 2 == 0 && |body| % 2 == 0 && Sum16(head) + Sum16(body) < 0x1_0000_0000
    requires Fold(Sum16(head) + Sum16(body)) == 65535
    ensures Verifies(head + body)
  {
    hide Fold, Sum16, Verifies;
    SumAppend(head, body);
    AllOnesVerifies(head + body);
  }

  lemma PseudoEven(source: seq<Byte>, destination: seq<Byte>, protocol: Byte, data: seq<Byte>)
    requires |data| < WORD && |source| == |destination| && (|source| == 4 || |source| == 16)
    ensures |PseudoHeader(source, destination, protocol, |data|)| % 2 == 0 && |Padded(data)| % 2 == 0
  {
  }

  /** A folded total of all ones is what a receiver accepts for pseudo-header and data together. */
  lemma TotalVerifies(source: seq<Byte>, destination: seq<Byte>, protocol: Byte, data: seq<Byte>)
    requires |data| < WORD && |source| == |destination| && (|source| == 4 || |source| == 16)
    requires Total(Pseudo(source, destination, protocol, |data|), data) == 65535
    ensures Verifies(PseudoHeader(source, destination, protocol, |data|) + Padded(data))
  {
    hide Fold, Sum16, PseudoHeader, Padded, Pseudo, Verifies, Total;
    var head, body := PseudoHeader(source, destination, protocol, |data|), Padded(data);
    PseudoEven(source, destination, protocol, data);
    PseudoIsFold(source, destination, protocol, |data|);
    SumPadded(data);
    TotalIsFold(Sum16(head), data);
    PartsVerify(head, body);
  }
}
