/**
 Recognition of trace probes in IP packets. Slicing a packet past its end, or from a
 later to an earlier position, stops the program; the model makes that a result.
 */
module Trace {
  import opened Outcomes
  import opened Packet

  const TRACE_PORT := 49_091
  const IP_PROTOCOL_UDP: Byte := 17
  const UDP_HEADER_LEN := 8
  const REQUEST_LEN := 1_024
  const REQUEST_MAGIC: Bytes := [0x49, 0x52, 0x4e, 0x54, 0x52, 0x43, 0x31, 0x51]

  datatype Probe = Probe(requestId: nat, source: Address, destination: Address, sourcePort: nat,
                         hopsRemaining: Byte)

  datatype Parsed = Recognised(probe: Probe) | NoProbe | OutOfBounds

  function BigEndian(s: Bytes): nat {
    if s == [] then 0 else 256 * BigEndian(s[..|s| - 1]) + s[|s| - 1]
  }

  function ParseUdpProbe(udp: Bytes, source: Address, destination: Address, hops: Byte): Parsed {
    if |udp| < UDP_HEADER_LEN + REQUEST_LEN then NoProbe
    else if Word(udp, 2) != TRACE_PORT || Word(udp, 4) < UDP_HEADER_LEN + REQUEST_LEN || Word(udp, 4) > |udp| then
      NoProbe
    else
      var request := udp[UDP_HEADER_LEN..Word(udp, 4)];
      if |request| != REQUEST_LEN || request[..8] != REQUEST_MAGIC then NoProbe
      else Recognised(Probe(BigEndian(request[8..16]), source, destination, Word(udp, 0), hops))
  }

  function ParseIpv4Probe(p: Bytes): Parsed {
    if |p| < 20 || p[9] != IP_PROTOCOL_UDP then NoProbe
    else if HeaderLength(p) < 20 || Word(p, 2) > |p| || Word(p, 6) % 0x4000 != 0 then NoProbe
    else if HeaderLength(p) > Word(p, 2) then OutOfBounds
    else ParseUdpProbe(p[HeaderLength(p)..Word(p, 2)], V4(p[12..16]), V4(p[16..20]), p[8])
  }

  function ParseIpv6Probe(p: Bytes): Parsed {
    if |p| < 40 || p[6] != IP_PROTOCOL_UDP then NoProbe
    else if 40 + Word(p, 4) > |p| then NoProbe
    else ParseUdpProbe(p[40..40 + Word(p, 4)], V6(p[8..24]), V6(p[24..40]), p[7])
  }

  function ParseProbe(p: Bytes): Parsed {
    if p == [] then NoProbe
    else if Version(p) == 4 then ParseIpv4Probe(p)
    else if Version(p) == 6 then ParseIpv6Probe(p)
    else NoProbe
  }

  // ------------------------------------------------------------------ agreement

  /** The whole flow a probe belongs to is the one inspection reports. */
  predicate Agrees(probe: Probe, info: PacketInfo, hops: Byte) {
    && probe.source == info.source && probe.destination == info.destination
    && info.protocol == IP_PROTOCOL_UDP
    && info.sourcePort == Some(probe.sourcePort) && info.destinationPort == Some(TRACE_PORT)
    && probe.hopsRemaining == hops
  }

  lemma MaskedFragment(word: nat)
    requires word < 0x1_0000
    ensures word % 0x4000 == 0 <==> word % 0x2000 == 0 && word / 0x2000 % 2 == 0
  {
  }

  lemma Ipv4Agreement(p: Bytes)
    requires p != [] && Version(p) == 4 && Inspect(p).Ok?
    ensures !ParseIpv4Probe(p).OutOfBounds?
    ensures ParseIpv4Probe(p).Recognised? ==> Agrees(ParseIpv4Probe(p).probe, Inspect(p).value, HopLimit(p))
  {
    MaskedFragment(Word(p, 6));
    if ParseIpv4Probe(p).Recognised? {
      var udp := p[HeaderLength(p)..Word(p, 2)];
      assert Word(udp, 0) == Word(p, HeaderLength(p)) && Word(udp, 2) == Word(p, HeaderLength(p) + 2);
    }
  }

  lemma Ipv6Agreement(p: Bytes)
    requires p != [] && Version(p) == 6 && Inspect(p).Ok?
    ensures !ParseIpv6Probe(p).OutOfBounds?
    ensures ParseIpv6Probe(p).Recognised? ==> Agrees(ParseIpv6Probe(p).probe, Inspect(p).value, HopLimit(p))
  {
    if ParseIpv6Probe(p).Recognised? {
      assert TransportHeader(p) == Found(p[6], 40, true);
      var udp := p[40..40 + Word(p, 4)];
      assert Word(udp, 0) == Word(p, 40) && Word(udp, 2) == Word(p, 42);
    }
  }

  /**
   On every packet inspection accepts, the probe parser stays in bounds and any probe
   it recognises has the addresses, protocol and ports inspection reports.
   */
  lemma ProbeAgrees(p: Bytes)
    requires Inspect(p).Ok?
    ensures !ParseProbe(p).OutOfBounds?
    ensures ParseProbe(p).Recognised? ==> Agrees(ParseProbe(p).probe, Inspect(p).value, HopLimit(p))
  {
    if Version(p) == 4 {
      Ipv4Agreement(p);
    } else {
      Ipv6Agreement(p);
    }
  }

  /**
   Exactly when the parser leaves the packet's bounds: an unfragmented IPv4 UDP packet
   whose stated total length is shorter than its header. Inspection accepts none of these.
   */
  lemma OutOfBoundsExactly(p: Bytes)
    ensures ParseProbe(p).OutOfBounds? <==>
              |p| >= 20 && Version(p) == 4 && p[9] == IP_PROTOCOL_UDP && Ipv4Unfragmented(p) &&
              20 <= HeaderLength(p) && Word(p, 2) < HeaderLength(p) && Word(p, 2) <= |p|
    ensures ParseProbe(p).OutOfBounds? ==> Inspect(p).Err?
  {
    if |p| >= 20 {
      MaskedFragment(Word(p, 6));
    }
  }

  /** A UDP packet of 24 bytes that states a header of 24 bytes and a total length of 20. */
  function ShortTotal(): Bytes {
    seq(24, i => if i == 0 then 0x46 else if i == 3 then 20 else if i == 8 then 64 else if i == 9 then 17 else 0)
  }

  lemma ShortTotalLeavesBounds()
    ensures ParseProbe(ShortTotal()) == OutOfBounds && Inspect(ShortTotal()).Err?
  {
    OutOfBoundsExactly(ShortTotal());
  }

  // ----------------------------------------------------------------- over hops

  /** A parse that saw `n` fewer hops remaining. */
  function Later(parsed: Parsed, n: nat): Parsed
    requires parsed.Recognised? ==> n <= parsed.probe.hopsRemaining
  {
    if parsed.Recognised? then
      Recognised(parsed.probe.(hopsRemaining := parsed.probe.hopsRemaining - n))
    else parsed
  }

  lemma SameUdp(udp: Bytes, source: Address, destination: Address, a: Byte, b: Byte)
    requires b <= a
    ensures ParseUdpProbe(udp, source, destination, a).Recognised? ==>
              ParseUdpProbe(udp, source, destination, a).probe.hopsRemaining == a
    ensures ParseUdpProbe(udp, source, destination, b) == Later(ParseUdpProbe(udp, source, destination, a), a - b)
  {
  }

  lemma Ipv4Later(p: Bytes, q: Bytes)
    requires |p| == |q| >= 20 && q[8] <= p[8]
    requires forall k :: 0 <= k < |p| && k != 8 && !(10 <= k < 12) ==> q[k] == p[k]
    ensures ParseIpv4Probe(p).Recognised? ==> ParseIpv4Probe(p).probe.hopsRemaining == p[8]
    ensures ParseIpv4Probe(q) == Later(ParseIpv4Probe(p), p[8] - q[8])
  {
    if 20 <= HeaderLength(p) <= Word(p, 2) <= |p| {
      assert p[12..16] == q[12..16] && p[16..20] == q[16..20];
      var udp := p[HeaderLength(p)..Word(p, 2)];
      assert udp == q[HeaderLength(p)..Word(p, 2)];
      SameUdp(udp, V4(p[12..16]), V4(p[16..20]), p[8], q[8]);
    }
  }

  lemma Ipv6Later(p: Bytes, q: Bytes)
    requires |p| == |q| >= 40 && q[7] <= p[7]
    requires forall k :: 0 <= k < |p| && k != 7 ==> q[k] == p[k]
    ensures ParseIpv6Probe(p).Recognised? ==> ParseIpv6Probe(p).probe.hopsRemaining == p[7]
    ensures ParseIpv6Probe(q) == Later(ParseIpv6Probe(p), p[7] - q[7])
  {
    if 40 + Word(p, 4) <= |p| {
      assert p[8..24] == q[8..24] && p[24..40] == q[24..40];
      var udp := p[40..40 + Word(p, 4)];
      assert udp == q[40..40 + Word(p, 4)];
      SameUdp(udp, V6(p[8..24]), V6(p[24..40]), p[7], q[7]);
    }
  }

  /**
   Every hop of a path recognises the same probe: after any number of hops the parse is
   the one at the start with that many fewer hops remaining.
   */
  lemma ProbeTravels(p: Bytes, n: nat)
    requires Inspect(p).Ok? && Travel(p, n).Ok?
    ensures ParseProbe(p).Recognised? ==> n <= ParseProbe(p).probe.hopsRemaining
    ensures ParseProbe(Travel(p, n).value) == Later(ParseProbe(p), n)
  {
    Travels(p, n);
    if Version(p) == 4 {
      Ipv4Later(p, Travel(p, n).value);
    } else {
      Ipv6Later(p, Travel(p, n).value);
    }
  }
}
