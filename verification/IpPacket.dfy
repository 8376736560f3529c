/**
 IPv4 and IPv6 packets as the router reads and forwards them: header checks, the
 header checksum of section 3.1 of RFC 791, the extension headers of section 4 of
 RFC 8200, and the hop that forwarding takes off.
 */
module IpPacket {
  import opened Basics
  import opened Net

  const IPV4_MIN_HEADER: nat := 20
  const IPV6_HEADER: nat := 40

  function Word(hi: u8, lo: u8): u16 { hi * 256 + lo }

  /** The sixteen-bit words of `b` added up; an odd last byte counts as a high byte. */
  function SumWords(b: seq<u8>): nat {
    if b == [] then 0
    else if |b| == 1 then Word(b[0], 0)
    else Word(b[0], b[1]) + SumWords(b[2..])
  }

  /** End-around carry until the sum fits sixteen bits. */
  function Fold(sum: nat): nat {
    if sum < 0x1_0000 then sum else Fold(sum % 0x1_0000 + sum / 0x1_0000)
  }

  function Checksum(header: seq<u8>): int {
    0xffff - Fold(SumWords(header))
  }

  /** How many times folding takes 65535 off the sum. */
  ghost function Carries(sum: nat): nat {
    if sum < 0x1_0000 then 0 else sum / 0x1_0000 + Carries(sum % 0x1_0000 + sum / 0x1_0000)
  }

  /** Folding keeps the sum modulo 65535, and keeps a nonzero sum nonzero. */
  lemma {:induction false} FoldIsResidue(sum: nat)
    ensures sum == Fold(sum) + 0xffff * Carries(sum)
    ensures 0 <= Fold(sum) <= 0xffff && (sum > 0 ==> Fold(sum) > 0)
  {
    if sum >= 0x1_0000 {
      FoldIsResidue(sum % 0x1_0000 + sum / 0x1_0000);
    }
  }

  lemma {:induction false} SumBound(b: seq<u8>)
    ensures SumWords(b) <= 0xffff * ((|b| + 1) / 2)
  {
    if |b| >= 2 {
      SumBound(b[2..]);
    }
  }

  /** Replacing one aligned word moves the sum by the difference. */
  lemma {:induction false} SumReplace(b: seq<u8>, i: nat, hi: u8, lo: u8)
    requires i % 2 == 0 && i + 1 < |b|
    ensures SumWords(b[i := hi][i + 1 := lo]) == SumWords(b) - Word(b[i], b[i + 1]) + Word(hi, lo)
  {
    var b' := b[i := hi][i + 1 := lo];
    if i == 0 {
      assert b'[2..] == b[2..];
    } else {
      SumReplace(b[2..], i - 2, hi, lo);
      assert b'[2..] == b[2..][i - 2 := hi][i - 1 := lo];
    }
  }

  /** The checksum of a header whose checksum field held zero, written into that field, verifies. */
  lemma ChecksumVerifies(header: seq<u8>, i: nat)
    requires i % 2 == 0 && i + 1 < |header| && header[i] == header[i + 1] == 0
    ensures var c := Checksum(header);
            && 0 <= c <= 0xffff
            && Checksum(header[i := c / 256][i + 1 := c % 256]) == 0
  {
    var sum := SumWords(header);
    FoldIsResidue(sum);
    var c := Checksum(header);
    SumReplace(header, i, c / 256, c % 256);
    FoldsToOnes(sum + c, Carries(sum) + 1);
  }

  lemma FoldsToOnes(sum: nat, k: nat)
    requires sum == 0xffff * k && sum > 0
    ensures Fold(sum) == 0xffff
  {
    FoldIsResidue(sum);
    assert Fold(sum) == 0xffff * (k - Carries(sum));
  }

  /** A header passes the checksum test exactly when its words add up to a nonzero multiple of 65535. */
  lemma PassesIffMultiple(header: seq<u8>)
    ensures Checksum(header) == 0 <==> SumWords(header) > 0 && SumWords(header) % 0xffff == 0
  {
    var sum := SumWords(header);
    FoldIsResidue(sum);
    if Fold(sum) == 0xffff {
      assert sum == 0xffff * (Carries(sum) + 1);
    } else {
      assert sum % 0xffff == Fold(sum);
    }
  }

  method HeaderChecksum(header: seq<u8>) returns (c: u16)
    requires |header| <= 0x2_0000
    ensures c == Checksum(header)
  {
    var sum := AddWords(header);
    while sum / 0x1_0000 != 0
      invariant Fold(sum) == Fold(SumWords(header))
      decreases sum
    {
      sum := sum % 0x1_0000 + sum / 0x1_0000;
    }
    c := 0xffff - sum;
  }

  method AddWords(header: seq<u8>) returns (sum: u32)
    requires |header| <= 0x2_0000
    ensures sum == SumWords(header)
  {
    SumBound(header);
    sum := 0;
    var i := 0;
    while i + 1 < |header|
      invariant 0 <= i <= |header|
      invariant sum + SumWords(header[i..]) == SumWords(header)
    {
      assert header[i..][2..] == header[i + 2..];
      sum := sum + Word(header[i], header[i + 1]);
      i := i + 2;
    }
    if i < |header| {
      sum := sum + Word(header[i], 0);
    }
  }

  function Version(p: seq<u8>): Option<nat> {
    if p == [] then None else Some(p[0] / 16)
  }

  function HeaderLength(p: seq<u8>): nat
    requires p != []
  {
    p[0] % 16 * 4
  }

  predicate ValidIpv4(p: seq<u8>) {
    && |p| >= IPV4_MIN_HEADER && p[0] / 16 == 4
    && var total := Word(p[2], p[3]);
       && IPV4_MIN_HEADER <= HeaderLength(p) <= total <= |p|
       && Checksum(p[..HeaderLength(p)]) == 0
  }

  /** Hop-by-hop, routing, fragment, authentication and destination options. */
  predicate IsExtension(next: u8) {
    next == 0 || next == 43 || next == 44 || next == 51 || next == 60
  }

  /** The length the extension header at `offset` claims, if its length field lies before `end`. */
  function ExtensionLength(p: seq<u8>, next: u8, offset: nat, end: nat): Option<nat>
    requires end <= |p|
  {
    if next == 44 then Some(8)
    else if offset + 2 > end then None
    else if next == 51 then Some((p[offset + 1] as int + 2) * 4)
    else Some((p[offset + 1] as int + 1) * 8)
  }

  /** Whether the chain that starts with `next` at `offset` ends within `budget` extension headers, all before `end`. */
  predicate WalkChain(p: seq<u8>, next: u8, offset: nat, end: nat, budget: nat)
    requires end <= |p|
    decreases budget
  {
    if !IsExtension(next) then true
    else if budget == 0 then false
    else
      var length := ExtensionLength(p, next, offset, end);
      length.Some? && offset + length.value <= end
      && WalkChain(p, p[offset], offset + length.value, end, budget - 1)
  }

  predicate ValidIpv6(p: seq<u8>) {
    && |p| >= IPV6_HEADER && p[0] / 16 == 6
    && var end := IPV6_HEADER + Word(p[4], p[5]);
       end <= |p| && WalkChain(p, p[6], IPV6_HEADER, end, 8)
  }

  function Source(p: seq<u8>): Option<IpAddr> {
    if ValidIpv4(p) then Some(V4(p[12..16])) else if ValidIpv6(p) then Some(V6(p[8..24])) else None
  }

  function Destination(p: seq<u8>): Option<IpAddr> {
    if ValidIpv4(p) then Some(V4(p[16..20])) else if ValidIpv6(p) then Some(V6(p[24..40])) else None
  }

  method CheckIpv6(p: seq<u8>) returns (valid: bool)
    ensures valid == ValidIpv6(p)
  {
    if |p| < IPV6_HEADER || p[0] / 16 != 6 {
      return false;
    }
    var end := IPV6_HEADER + Word(p[4], p[5]);
    if end > |p| {
      return false;
    }
    var next, offset: nat := p[6], IPV6_HEADER;
    for i := 0 to 8
      invariant WalkChain(p, p[6], IPV6_HEADER, end, 8) == WalkChain(p, next, offset, end, 8 - i)
    {
      if !IsExtension(next) {
        return true;
      }
      var length := ExtensionLength(p, next, offset, end);
      if length.None? || offset + length.value > end {
        return false;
      }
      next := p[offset];
      offset := offset + length.value;
    }
    // Headers left over once the budget is spent make the packet invalid.
    valid := !IsExtension(next);
  }

  // An independent reading of the extension chain: where its headers lie and of what kind they are.

  datatype Hop = Hop(kind: u8, offset: nat)

  /** `b` is the header that extension header `a` leads to. */
  predicate LeadsTo(p: seq<u8>, a: Hop, b: Hop, end: nat)
    requires end <= |p|
  {
    var length := ExtensionLength(p, a.kind, a.offset, end);
    && IsExtension(a.kind) && length.Some?
    && b.offset == a.offset + length.value <= end && b.kind == p[a.offset]
  }

  /** Consecutive headers of `p`, the last of which is no extension header. */
  ghost predicate IsChain(p: seq<u8>, hops: seq<Hop>, end: nat)
    requires end <= |p|
  {
    && hops != [] && !IsExtension(hops[|hops| - 1].kind)
    && forall i | 0 <= i < |hops| - 1 :: LeadsTo(p, hops[i], hops[i + 1], end)
  }

  /** The bounded walk accepts exactly the chains of at most `budget` extension headers. */
  lemma {:induction false} WalkFindsChain(p: seq<u8>, next: u8, offset: nat, end: nat, budget: nat)
    returns (hops: seq<Hop>)
    requires end <= |p| && WalkChain(p, next, offset, end, budget)
    ensures IsChain(p, hops, end) && hops[0] == Hop(next, offset) && |hops| <= budget + 1
    decreases budget
  {
    if !IsExtension(next) {
      hops := [Hop(next, offset)];
    } else {
      var length := ExtensionLength(p, next, offset, end).value;
      var rest := WalkFindsChain(p, p[offset], offset + length, end, budget - 1);
      hops := [Hop(next, offset)] + rest;
      forall i | 0 <= i < |hops| - 1 ensures LeadsTo(p, hops[i], hops[i + 1], end) {
        if i > 0 {
          assert LeadsTo(p, rest[i - 1], rest[i], end);
        }
      }
    }
  }

  lemma {:induction false} ChainPassesWalk(p: seq<u8>, hops: seq<Hop>, end: nat, budget: nat)
    requires end <= |p| && IsChain(p, hops, end) && |hops| <= budget + 1
    ensures WalkChain(p, hops[0].kind, hops[0].offset, end, budget)
    decreases |hops|
  {
    if |hops| > 1 {
      var rest := hops[1..];
      forall i | 0 <= i < |rest| - 1 ensures LeadsTo(p, rest[i], rest[i + 1], end) {
        assert LeadsTo(p, hops[i + 1], hops[i + 2], end);
      }
      assert LeadsTo(p, hops[0], hops[1], end);
      ChainPassesWalk(p, rest, end, budget - 1);
    }
  }

  /** An IPv6 packet is accepted exactly when some chain of at most eight extension headers explains it. */
  lemma Ipv6AcceptsChains(p: seq<u8>)
    requires |p| >= IPV6_HEADER && p[0] / 16 == 6 && IPV6_HEADER + Word(p[4], p[5]) <= |p|
    ensures ValidIpv6(p) <==>
              exists hops :: IsChain(p, hops, IPV6_HEADER + Word(p[4], p[5])) && hops[0] == Hop(p[6], IPV6_HEADER)
                && |hops| <= 9
  {
    var end := IPV6_HEADER + Word(p[4], p[5]);
    if ValidIpv6(p) {
      var hops := WalkFindsChain(p, p[6], IPV6_HEADER, end, 8);
    }
    if hops :| IsChain(p, hops, end) && hops[0] == Hop(p[6], IPV6_HEADER) && |hops| <= 9 {
      ChainPassesWalk(p, hops, end, 8);
    }
  }

  // Forwarding

  /** Index of the TTL or hop-limit byte. */
  function HopIndex(p: seq<u8>): nat
    requires p != []
  {
    if p[0] / 16 == 4 then 8 else 7
  }

  predicate CanForward(p: seq<u8>) {
    && p != []
    && if p[0] / 16 == 4 then
         |p| >= IPV4_MIN_HEADER && IPV4_MIN_HEADER <= HeaderLength(p) <= |p| && p[8] > 1
       else
         p[0] / 16 == 6 && |p| >= IPV6_HEADER && p[7] > 1
  }

  /** The packet one hop on. */
  function Forwarded(p: seq<u8>): (q: seq<u8>)
    requires CanForward(p)
  {
    if p[0] / 16 == 4 then
      var q := p[8 := p[8] - 1][10 := 0][11 := 0];
      SumBound(q[..HeaderLength(p)]);
      FoldIsResidue(SumWords(q[..HeaderLength(p)]));
      var c := Checksum(q[..HeaderLength(p)]);
      q[10 := c / 256][11 := c % 256]
    else p[7 := p[7] - 1]
  }

  method DecrementHopLimit(packet: array<u8>) returns (ok: bool)
    modifies packet
    ensures ok == CanForward(old(packet[..]))
    ensures packet[..] == if ok then Forwarded(old(packet[..])) else old(packet[..])
  {
    if packet.Length == 0 {
      return false;
    }
    if packet[0] / 16 == 4 {
      if packet.Length < IPV4_MIN_HEADER {
        return false;
      }
      var headerLength := packet[0] % 16 * 4;
      if headerLength < IPV4_MIN_HEADER || packet.Length < headerLength || packet[8] <= 1 {
        return false;
      }
      packet[8] := packet[8] - 1;
      packet[10], packet[11] := 0, 0;
      assert packet[..] == old(packet[..])[8 := old(packet[8]) - 1][10 := 0][11 := 0];
      var checksum := HeaderChecksum(packet[..headerLength]);
      assert packet[..headerLength] == packet[..][..headerLength];
      packet[10], packet[11] := checksum / 256, checksum % 256;
      return true;
    } else if packet[0] / 16 == 6 {
      if packet.Length < IPV6_HEADER || packet[7] <= 1 {
        return false;
      }
      packet[7] := packet[7] - 1;
      return true;
    }
    return false;
  }

  method PrepareForward(packet: seq<u8>) returns (copy: Option<seq<u8>>)
    ensures copy == if CanForward(packet) then Some(Forwarded(packet)) else None
  {
    var buffer := new u8[|packet|](i requires 0 <= i < |packet| => packet[i]);
    assert buffer[..] == packet;
    var ok := DecrementHopLimit(buffer);
    copy := if ok then Some(buffer[..]) else None;
  }

  lemma {:induction false} WalkIgnoresBase(p: seq<u8>, q: seq<u8>, next: u8, offset: nat, end: nat, budget: nat)
    requires |p| == |q| && end <= |p| && offset >= IPV6_HEADER
    requires forall i | IPV6_HEADER <= i < |p| :: p[i] == q[i]
    ensures WalkChain(p, next, offset, end, budget) == WalkChain(q, next, offset, end, budget)
    decreases budget
  {
    if IsExtension(next) && budget > 0 {
      var length := ExtensionLength(p, next, offset, end);
      if length.Some? && offset + length.value <= end {
        WalkIgnoresBase(p, q, p[offset], offset + length.value, end, budget - 1);
      }
    }
  }

  lemma ForwardedIpv4Valid(p: seq<u8>)
    requires ValidIpv4(p) && CanForward(p)
    ensures ValidIpv4(Forwarded(p))
  {
    var n := HeaderLength(p);
    var zeroed := p[8 := p[8] - 1][10 := 0][11 := 0];
    ChecksumVerifies(zeroed[..n], 10);
    var c := Checksum(zeroed[..n]);
    assert Forwarded(p)[..n] == zeroed[..n][10 := c / 256][11 := c % 256];
  }

  lemma ForwardedIpv6Valid(p: seq<u8>)
    requires ValidIpv6(p) && CanForward(p)
    ensures ValidIpv6(Forwarded(p))
  {
    WalkIgnoresBase(p, Forwarded(p), p[6], IPV6_HEADER, IPV6_HEADER + Word(p[4], p[5]), 8);
  }

  /**
   Forwarding preserves the packet: an accepted packet is forwarded exactly when it
   has more than one hop left, and the result is accepted with the same addresses,
   one hop less, and no other byte changed but an IPv4 header's checksum.
   */
  lemma ForwardingPreserves(p: seq<u8>)
    requires Source(p).Some?
    ensures CanForward(p) <==> p[HopIndex(p)] > 1
    ensures CanForward(p) ==>
              var q := Forwarded(p);
              && Source(q) == Source(p) && Destination(q) == Destination(p) && Destination(p).Some?
              && |q| == |p| && HopIndex(q) == HopIndex(p) && q[HopIndex(p)] == p[HopIndex(p)] - 1
              && (forall i | 0 <= i < |p| && i != HopIndex(p) :: q[i] == p[i] || (ValidIpv4(p) && (i == 10 || i == 11)))
              && (ValidIpv4(p) ==> Checksum(q[..HeaderLength(q)]) == 0)
  {
    if CanForward(p) {
      var q := Forwarded(p);
      if ValidIpv4(p) {
        ForwardedIpv4Valid(p);
        assert q[12..16] == p[12..16] && q[16..20] == p[16..20];
      } else {
        ForwardedIpv6Valid(p);
        assert q[8..24] == p[8..24] && q[24..40] == p[24..40];
      }
    }
  }

  // Ethernet frames

  const ETHERNET_HEADER: nat := 14
  const ETHERTYPE_IPV4: u16 := 0x0800
  const ETHERTYPE_ARP: u16 := 0x0806
  const ETHERTYPE_IPV6: u16 := 0x86dd

  type Mac = m: seq<u8> | |m| == 6 witness [0, 0, 0, 0, 0, 0]

  function DestinationMac(frame: seq<u8>): Option<Mac> {
    if |frame| < 6 then None else Some(frame[0..6])
  }

  function SourceMac(frame: seq<u8>): Option<Mac> {
    if |frame| < 12 then None else Some(frame[6..12])
  }

  function EtherType(frame: seq<u8>): Option<u16> {
    if |frame| < 14 then None else Some(Word(frame[12], frame[13]))
  }

  predicate IsGroupMac(mac: Mac) { mac[0] % 2 == 1 }

  /** The inner IP address a frame speaks for, as sender or as receiver. */
  function PayloadIp(frame: seq<u8>, isDestination: bool): Option<IpAddr> {
    if |frame| < ETHERNET_HEADER then None
    else
      var payload, kind := frame[ETHERNET_HEADER..], Word(frame[12], frame[13]);
      if (kind == ETHERTYPE_IPV4 && Version(payload) == Some(4))
        || (kind == ETHERTYPE_IPV6 && Version(payload) == Some(6)) then
        if isDestination then Destination(payload) else Source(payload)
      else if kind != ETHERTYPE_ARP || !IsArp(frame, payload) then None
      else if isDestination then Some(V4(payload[24..28]))
      else Some(V4(payload[14..18]))
  }

  /** An Ethernet ARP request or reply whose sender hardware address is the frame's own. */
  predicate IsArp(frame: seq<u8>, payload: seq<u8>)
    requires |frame| >= ETHERNET_HEADER
    ensures IsArp(frame, payload) ==> |payload| >= 28
  {
    && |payload| >= 28
    && payload[0..2] == [0, 1] && payload[2..4] == [8, 0] && payload[4] == 6 && payload[5] == 4
    && (Word(payload[6], payload[7]) == 1 || Word(payload[6], payload[7]) == 2)
    && frame[6..12] == payload[8..14]
  }
}
