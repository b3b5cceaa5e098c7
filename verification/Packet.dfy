/**
 Inspection of IPv4 and IPv6 packets and the in-place hop-limit decrement. Bytes are
 numbers below 256; masks and shifts are written as quotients and remainders.
 */
module Packet {
  import opened Outcomes

  datatype Address = V4(bytes: Bytes) | V6(bytes: Bytes)

  datatype PacketInfo = PacketInfo(source: Address, destination: Address, protocol: Byte,
                                   sourcePort: Option<nat>, destinationPort: Option<nat>,
                                   length: nat, latencyProtected: bool)

  function U16(high: Byte, low: Byte): (word: nat)
    ensures word < 0x1_0000
  {
    256 * high + low
  }

  function Word(p: Bytes, at: nat): (word: nat)
    requires at + 2 <= |p|
    ensures word < 0x1_0000
  {
    U16(p[at], p[at + 1])
  }

  // ----------------------------------------------------- the IPv6 header chain

  /**
   The chain of headers after the fixed IPv6 header (section 4 of RFC 8200, section 2.2
   of RFC 4302), followed to its end without a bound: an extension header and the rest,
   the upper-layer header, or a header cut short by the end of the packet.
   */
  datatype Chain = Extension(kind: Byte, at: nat, rest: Chain) | Upper(protocol: Byte, offset: nat) | Cut

  predicate IsOptions(kind: Byte) {
    kind == 0 || kind == 43 || kind == 60
  }

  predicate IsExtension(kind: Byte) {
    IsOptions(kind) || kind == 44 || kind == 51
  }

  /** The length of the extension header at `at`, or nothing when the packet ends inside it. */
  function ExtensionLength(p: Bytes, kind: Byte, at: nat): (length: Option<nat>)
    requires IsExtension(kind)
    ensures length.Some? ==> length.value >= 8 && at + length.value <= |p|
  {
    if at + 2 > |p| then None
    else
      var length: nat := if kind == 44 then 8
                         else if kind == 51 then 4 * (p[at + 1] as nat + 2)
                         else 8 * (p[at + 1] as nat + 1);
      if at + length <= |p| then Some(length) else None
  }

  function ChainAt(p: Bytes, kind: Byte, at: nat): Chain
    decreases |p| - at
  {
    if !IsExtension(kind) then Upper(kind, at)
    else if ExtensionLength(p, kind, at).None? then Cut
    else Extension(kind, at, ChainAt(p, p[at], at + ExtensionLength(p, kind, at).value))
  }

  function Depth(c: Chain): nat {
    if c.Extension? then 1 + Depth(c.rest) else 0
  }

  function End(c: Chain): (e: Chain)
    ensures !e.Extension?
  {
    if c.Extension? then End(c.rest) else c
  }

  /** An offset of zero and no further fragment; the two reserved bits are ignored. */
  predicate Atomic(word: nat) {
    word / 8 == 0 && word % 2 == 0
  }

  /** Whether the last fragment header of the chain, if there is one, is atomic. */
  function Unfragmented(p: Bytes, c: Chain, otherwise: bool): bool {
    if !c.Extension? then otherwise
    else if c.kind == 44 && c.at + 4 <= |p| then Unfragmented(p, c.rest, Atomic(Word(p, c.at + 2)))
    else Unfragmented(p, c.rest, otherwise)
  }

  datatype Transport = Found(protocol: Byte, offset: nat, unfragmented: bool) | Truncated | TooMany

  /** At most seven extension headers may precede the upper-layer header. */
  function TransportOf(p: Bytes, c: Chain, flag: bool): Transport {
    if Depth(c) > 7 then TooMany
    else if End(c).Cut? then Truncated
    else Found(End(c).protocol, End(c).offset, Unfragmented(p, c, flag))
  }

  function TransportHeader(p: Bytes): Transport
    requires |p| >= 40
  {
    TransportOf(p, ChainAt(p, p[6], 40), true)
  }

  lemma {:induction false} EndInside(p: Bytes, kind: Byte, at: nat)
    requires at <= |p|
    ensures var e := End(ChainAt(p, kind, at)); e.Upper? ==> at <= e.offset <= |p| && !IsExtension(e.protocol)
    decreases |p| - at
  {
    if IsExtension(kind) && ExtensionLength(p, kind, at).Some? {
      EndInside(p, p[at], at + ExtensionLength(p, kind, at).value);
    }
  }

  /** The upper-layer header found lies inside the packet and is no extension header. */
  lemma TransportInside(p: Bytes)
    requires |p| >= 40
    ensures TransportHeader(p).Found? ==>
              40 <= TransportHeader(p).offset <= |p| && !IsExtension(TransportHeader(p).protocol)
  {
    EndInside(p, p[6], 40);
  }

  /** What is left to find, after `i` extension headers were passed. */
  ghost predicate Remaining(p: Bytes, next: Byte, offset: nat, flag: bool, i: nat)
    requires |p| >= 40
  {
    var whole, rest := ChainAt(p, p[6], 40), ChainAt(p, next, offset);
    && Depth(whole) == i + Depth(rest) && End(whole) == End(rest)
    && Unfragmented(p, whole, true) == Unfragmented(p, rest, flag)
  }

  lemma Passed(p: Bytes, next: Byte, offset: nat, flag: bool, i: nat)
    requires |p| >= 40 && Remaining(p, next, offset, flag, i)
    requires IsExtension(next) && ExtensionLength(p, next, offset).Some?
    ensures var after := if next == 44 then Atomic(Word(p, offset + 2)) else flag;
            Remaining(p, p[offset], offset + ExtensionLength(p, next, offset).value, after, i + 1)
  {
  }

  /** The bounded walk is the unbounded chain, refused when it has more than seven extension headers. */
  method Ipv6TransportHeader(p: Bytes) returns (r: Transport)
    requires |p| >= 40
    ensures r == TransportHeader(p)
    ensures r.Found? ==> 40 <= r.offset <= |p|
  {
    TransportInside(p);
    var next, offset, unfragmented := p[6], 40, true;
    for i := 0 to 8
      invariant 40 <= offset <= |p| && Remaining(p, next, offset, unfragmented, i)
    {
      if IsExtension(next) && ExtensionLength(p, next, offset).Some? {
        Passed(p, next, offset, unfragmented, i);
      }
      if IsOptions(next) {
        if |p| < offset + 2 {
          return Truncated;
        }
        var length: nat := 8 * (p[offset + 1] as nat + 1);
        if |p| < offset + length {
          return Truncated;
        }
        next, offset := p[offset], offset + length;
      } else if next == 44 {
        if |p| < offset + 8 {
          return Truncated;
        }
        unfragmented := Atomic(Word(p, offset + 2));
        next, offset := p[offset], offset + 8;
      } else if next == 51 {
        if |p| < offset + 2 {
          return Truncated;
        }
        var length: nat := 4 * (p[offset + 1] as nat + 2);
        if |p| < offset + length {
          return Truncated;
        }
        next, offset := p[offset], offset + length;
      } else {
        return Found(next, offset, unfragmented);
      }
    }
    r := TooMany;
  }

  // ------------------------------------------------------------------ inspection

  function TransportPorts(p: Bytes, offset: nat, protocol: Byte): (Option<nat>, Option<nat>) {
    if (protocol != 6 && protocol != 17) || |p| < offset + 4 then (None, None)
    else (Some(Word(p, offset)), Some(Word(p, offset + 2)))
  }

  /** ICMP, TCP handshake and teardown, and TCP segments without payload. */
  predicate LatencyProtected(p: Bytes, offset: nat, protocol: Byte, unfragmented: bool) {
    if protocol == 1 || protocol == 58 then true
    else if protocol != 6 || !unfragmented || |p| < offset + 20 then false
    else if p[offset + 13] % 8 != 0 then true
    else
      var length: nat := p[offset + 12] / 16 * 4;
      length >= 20 && offset + length == |p|
  }

  function Version(p: Bytes): nat
    requires p != []
  {
    p[0] / 16
  }

  function HeaderLength(p: Bytes): nat
    requires p != []
  {
    p[0] % 16 * 4
  }

  predicate Ipv4Wellformed(p: Bytes) {
    |p| >= 20 && HeaderLength(p) >= 20 && |p| >= HeaderLength(p) &&
    Word(p, 2) >= HeaderLength(p) && |p| == Word(p, 2)
  }

  predicate Ipv4Unfragmented(p: Bytes)
    requires |p| >= 20
  {
    Word(p, 6) % 0x2000 == 0 && Word(p, 6) / 0x2000 % 2 == 0
  }

  function Describe(p: Bytes, source: Address, destination: Address, protocol: Byte, offset: nat,
                    unfragmented: bool): PacketInfo
  {
    var ports := if unfragmented then TransportPorts(p, offset, protocol) else (None, None);
    PacketInfo(source, destination, protocol, ports.0, ports.1, |p|,
               LatencyProtected(p, offset, protocol, unfragmented))
  }

  function ValidateIpv4(p: Bytes): Result<PacketInfo> {
    if !Ipv4Wellformed(p) then Err
    else Ok(Describe(p, V4(p[12..16]), V4(p[16..20]), p[9], HeaderLength(p), Ipv4Unfragmented(p)))
  }

  function ValidateIpv6(p: Bytes): Result<PacketInfo> {
    if |p| < 40 || Word(p, 4) == 0 || |p| != 40 + Word(p, 4) then Err
    else
      var t := TransportHeader(p);
      if !t.Found? then Err
      else Ok(Describe(p, V6(p[8..24]), V6(p[24..40]), t.protocol, t.offset, t.unfragmented))
  }

  function Inspect(p: Bytes): Result<PacketInfo> {
    if p == [] then Err
    else if Version(p) == 4 then ValidateIpv4(p)
    else if Version(p) == 6 then ValidateIpv6(p)
    else Err
  }

  /** Where the version keeps its hop limit. */
  function HopIndex(p: Bytes): nat
    requires p != []
  {
    if Version(p) == 4 then 8 else 7
  }

  function HopLimit(p: Bytes): Byte
    requires Inspect(p).Ok?
  {
    p[HopIndex(p)]
  }

  // ------------------------------------------------------------------- one hop

  function Low(word: nat): Byte {
    word % 256
  }

  function High(word: nat): Byte
    requires word < 0x1_0000
  {
    word / 256
  }

  /** One's-complement addition of 0x0100. */
  function Bumped(checksum: nat): (folded: nat)
    requires checksum < 0x1_0000
    ensures folded < 0x1_0000
  {
    (checksum + 0x0100) % 0x1_0000 + (checksum + 0x0100) / 0x1_0000
  }

  /** The packet one hop on. */
  function Decremented(p: Bytes): (q: Bytes)
    requires Inspect(p).Ok? && HopLimit(p) > 1
  {
    if Version(p) == 4 then
      var c := Bumped(Word(p, 10));
      p[8 := p[8] - 1][10 := High(c)][11 := Low(c)]
    else p[7 := p[7] - 1]
  }

  /** One hop in place: refused, with the packet untouched, unless it is well formed and has hops left. */
  method DecrementHopLimit(packet: array<Byte>) returns (ok: bool)
    modifies packet
    ensures ok <==> old(Inspect(packet[..]).Ok? && HopLimit(packet[..]) > 1)
    ensures packet[..] == if ok then old(Decremented(packet[..])) else old(packet[..])
  {
    if Inspect(packet[..]).Err? {
      return false;
    }
    ghost var p := packet[..];
    if packet[0] / 16 == 4 {
      if packet[8] <= 1 {
        return false;
      }
      packet[8] := packet[8] - 1;
      var checksum := U16(packet[10], packet[11]);
      var updated := checksum + 0x0100;
      var folded := updated % 0x1_0000 + updated / 0x1_0000;
      packet[10], packet[11] := High(folded), Low(folded);
    } else {
      if packet[7] <= 1 {
        return false;
      }
      packet[7] := packet[7] - 1;
    }
    ok := true;
  }

  /** A hop takes one off the hop limit and changes no byte but it and the IPv4 checksum. */
  lemma OneHop(p: Bytes)
    requires Inspect(p).Ok? && HopLimit(p) > 1
    ensures var q := Decremented(p);
            && |q| == |p| && q[HopIndex(p)] == HopLimit(p) - 1
            && (forall k :: 0 <= k < |p| && k != HopIndex(p) && !(Version(p) == 4 && 10 <= k < 12) ==> q[k] == p[k])
            && (Version(p) == 4 ==> Word(q, 10) == Bumped(Word(p, 10)))
  {
  }

  lemma {:induction false} SameChain(p: Bytes, q: Bytes, kind: Byte, at: nat)
    requires |p| == |q| >= 40 && at >= 40 && p[40..] == q[40..]
    ensures ChainAt(p, kind, at) == ChainAt(q, kind, at)
    decreases |p| - at
  {
    Above(p, q, at);
    if IsExtension(kind) && ExtensionLength(p, kind, at).Some? {
      SameChain(p, q, p[at], at + ExtensionLength(p, kind, at).value);
    }
  }

  lemma Above(p: Bytes, q: Bytes, at: nat)
    requires |p| == |q| >= 40 && at >= 40 && p[40..] == q[40..]
    ensures at < |p| ==> p[at] == q[at]
    ensures at + 1 < |p| ==> p[at + 1] == q[at + 1]
  {
    assert at < |p| ==> p[at] == p[40..][at - 40] && q[at] == q[40..][at - 40];
    assert at + 1 < |p| ==> p[at + 1] == p[40..][at - 39] && q[at + 1] == q[40..][at - 39];
  }

  lemma {:induction false} SameUnfragmented(p: Bytes, q: Bytes, kind: Byte, at: nat, flag: bool)
    requires |p| == |q| >= 40 && at >= 40 && p[40..] == q[40..]
    ensures Unfragmented(p, ChainAt(p, kind, at), flag) == Unfragmented(q, ChainAt(p, kind, at), flag)
    decreases |p| - at
  {
    if IsExtension(kind) && ExtensionLength(p, kind, at).Some? {
      var length := ExtensionLength(p, kind, at).value;
      Above(p, q, at + 2);
      var next := if kind == 44 then Atomic(Word(p, at + 2)) else flag;
      SameUnfragmented(p, q, p[at], at + length, next);
    }
  }

  lemma SameDescription(p: Bytes, q: Bytes, source: Address, destination: Address, protocol: Byte, offset: nat,
                        unfragmented: bool)
    requires |p| == |q| && forall k :: offset <= k < |p| ==> p[k] == q[k]
    ensures Describe(p, source, destination, protocol, offset, unfragmented) ==
            Describe(q, source, destination, protocol, offset, unfragmented)
  {
  }

  /** A hop changes nothing that inspection reports. */
  lemma HopKeepsInfo(p: Bytes)
    requires Inspect(p).Ok? && HopLimit(p) > 1
    ensures Inspect(Decremented(p)) == Inspect(p) && Version(Decremented(p)) == Version(p)
  {
    var q := Decremented(p);
    OneHop(p);
    if Version(p) == 4 {
      assert p[12..16] == q[12..16] && p[16..20] == q[16..20];
      SameDescription(p, q, V4(p[12..16]), V4(p[16..20]), p[9], HeaderLength(p), Ipv4Unfragmented(p));
    } else {
      assert p[8..24] == q[8..24] && p[24..40] == q[24..40] && p[40..] == q[40..];
      SameChain(p, q, p[6], 40);
      SameUnfragmented(p, q, p[6], 40, true);
      TransportInside(p);
      var t := TransportHeader(p);
      SameDescription(p, q, V6(p[8..24]), V6(p[24..40]), t.protocol, t.offset, t.unfragmented);
    }
  }

  // ------------------------------------------------------------------ checksum

  /** The sum of the first `n` 16-bit words. */
  function WordSum(p: Bytes, n: nat): nat
    requires 2 * n <= |p|
  {
    if n == 0 then 0 else WordSum(p, n - 1) + Word(p, 2 * n - 2)
  }

  /** One's-complement folding to 16 bits. */
  function Fold(sum: nat): nat {
    if sum < 0x1_0000 then sum else Fold(sum % 0x1_0000 + sum / 0x1_0000)
  }

  /** The header checksum verifies: the header's words sum to all ones (section 3.1 of RFC 791). */
  predicate ChecksumValid(p: Bytes)
    requires Inspect(p).Ok? && Version(p) == 4
  {
    Fold(WordSum(p, HeaderLength(p) / 2)) == 0xffff
  }

  /** Folding keeps the residue and turns only zero into zero. */
  lemma {:induction false} FoldResidue(sum: nat)
    ensures Fold(sum) % 0xffff == sum % 0xffff && Fold(sum) <= 0xffff
    ensures Fold(sum) == 0 <==> sum == 0
  {
    if sum >= 0x1_0000 {
      var low, high := sum % 0x1_0000, sum / 0x1_0000;
      assert sum == low + high + 0xffff * high;
      Residue(low + high, high);
      FoldResidue(low + high);
    }
  }

  lemma Residue(a: nat, k: nat)
    ensures (a + 0xffff * k) % 0xffff == a % 0xffff
  {
  }

  lemma ValidExactly(sum: nat)
    ensures Fold(sum) == 0xffff <==> sum > 0 && sum % 0xffff == 0
  {
    FoldResidue(sum);
  }

  /** The words other than the hop-limit word and the checksum word keep their sum. */
  lemma {:induction false} SumMoves(p: Bytes, q: Bytes, n: nat)
    requires |p| == |q| && 12 <= 2 * n <= |p|
    requires forall k :: 0 <= k < |p| && !(8 <= k < 12) ==> q[k] == p[k]
    ensures WordSum(q, n) - WordSum(p, n) == Word(q, 8) - Word(p, 8) + Word(q, 10) - Word(p, 10)
  {
    if n == 6 {
      FirstWords(p);
      FirstWords(q);
    } else {
      SumMoves(p, q, n - 1);
    }
  }

  lemma FirstWords(p: Bytes)
    requires |p| >= 12
    ensures WordSum(p, 6) == Word(p, 0) + Word(p, 2) + Word(p, 4) + Word(p, 6) + Word(p, 8) + Word(p, 10)
  {
    assert WordSum(p, 1) == Word(p, 0);
    assert WordSum(p, 3) == WordSum(p, 1) + Word(p, 2) + Word(p, 4);
    assert WordSum(p, 5) == WordSum(p, 3) + Word(p, 6) + Word(p, 8);
  }

  lemma {:induction false} SumAtLeast(p: Bytes, n: nat)
    requires 0 < n && 2 * n <= |p|
    ensures WordSum(p, n) >= Word(p, 0)
  {
    if n > 1 {
      SumAtLeast(p, n - 1);
    }
  }

  /** Raising the checksum word makes up for the hop-limit word, but for the carry out of it. */
  lemma BumpMoves(checksum: nat)
    requires checksum < 0x1_0000
    ensures Bumped(checksum) - checksum == 256 || Bumped(checksum) - checksum == 256 - 0xffff
  {
  }

  /** What a hop does to the words of an IPv4 header. */
  lemma HopWords(p: Bytes, q: Bytes)
    requires Inspect(p).Ok? && HopLimit(p) > 1 && Version(p) == 4 && q == Decremented(p)
    ensures |q| == |p| && Word(q, 0) > 0
    ensures Word(q, 8) == Word(p, 8) - 256 && Word(q, 10) == Bumped(Word(p, 10))
    ensures forall k :: 0 <= k < |p| && !(8 <= k < 12) ==> q[k] == p[k]
  {
    OneHop(p);
  }

  /** A hop keeps the header's sum, or lowers it by exactly one full fold. */
  lemma HopSum(p: Bytes)
    requires Inspect(p).Ok? && HopLimit(p) > 1 && Version(p) == 4
    ensures var n := HeaderLength(p) / 2;
            var before, after := WordSum(p, n), WordSum(Decremented(p), n);
            after > 0 && (after == before || after == before - 0xffff)
  {
    var q, n := Decremented(p), HeaderLength(p) / 2;
    HopWords(p, q);
    SumMoves(p, q, n);
    SumAtLeast(q, n);
    BumpMoves(Word(p, 10));
  }

  /** A valid header checksum stays valid over a hop, although it is never recomputed. */
  lemma HopKeepsChecksum(p: Bytes)
    requires Inspect(p).Ok? && HopLimit(p) > 1 && Version(p) == 4
    ensures Inspect(Decremented(p)).Ok? && Version(Decremented(p)) == 4
    ensures ChecksumValid(p) <==> ChecksumValid(Decremented(p))
  {
    HopKeepsInfo(p);
    HopSum(p);
    var n := HeaderLength(p) / 2;
    var before, after := WordSum(p, n), WordSum(Decremented(p), n);
    ValidExactly(before);
    ValidExactly(after);
    assert after % 0xffff == before % 0xffff by {
      if after != before {
        Residue(after, 1);
      }
    }
  }

  /** The checksum a sender computes: the complement of the folded sum of the other words. */
  function Recomputed(p: Bytes): (c: nat)
    requires Inspect(p).Ok? && Version(p) == 4
    ensures c < 0x1_0000
  {
    var others := WordSum(p, HeaderLength(p) / 2) - Word(p, 10);
    SumSplits(p, HeaderLength(p) / 2);
    FoldResidue(others);
    0xffff - Fold(others)
  }

  lemma {:induction false} SumSplits(p: Bytes, n: nat)
    requires 12 <= 2 * n <= |p|
    ensures WordSum(p, n) >= Word(p, 10) + Word(p, 0)
  {
    if n == 6 {
      FirstWords(p);
    } else {
      SumSplits(p, n - 1);
    }
  }

  /**
   A checksum is valid exactly when it is the recomputed one or the other zero of
   one's-complement arithmetic (section 3 of RFC 1624), so after a hop the incremental
   update may leave 0xffff where recomputing would give zero, and differs no other way.
   */
  lemma ValidIsRecomputed(p: Bytes)
    requires Inspect(p).Ok? && Version(p) == 4
    ensures ChecksumValid(p) <==> Word(p, 10) == Recomputed(p) || (Word(p, 10) == 0xffff && Recomputed(p) == 0)
  {
    var n := HeaderLength(p) / 2;
    var others := WordSum(p, n) - Word(p, 10);
    SumSplits(p, n);
    FoldResidue(others);
    ValidExactly(WordSum(p, n));
    assert Word(p, 0) >= 0x4000;
    SumResidue(others, Word(p, 10), Fold(others));
  }

  lemma SumResidue(others: nat, c: nat, folded: nat)
    requires c <= 0xffff && 0 < folded <= 0xffff && folded % 0xffff == others % 0xffff
    ensures (others + c) % 0xffff == 0 <==> c == 0xffff - folded || (c == 0xffff && folded == 0xffff)
  {
    assert (others + c) % 0xffff == (folded + c) % 0xffff;
  }

  // ------------------------------------------------------------------ many hops

  /** The packet after `n` forwarding steps, or nothing when one of them refuses it. */
  function Travel(p: Bytes, n: nat): Result<Bytes>
    decreases n
  {
    if n == 0 then Ok(p)
    else if Inspect(p).Ok? && HopLimit(p) > 1 then Travel(Decremented(p), n - 1)
    else Err
  }

  /** Only the hop limit and, for IPv4, the checksum may differ. */
  ghost predicate SameBut(p: Bytes, q: Bytes)
    requires p != []
  {
    |q| == |p| &&
    forall k :: 0 <= k < |p| && k != HopIndex(p) && !(Version(p) == 4 && 10 <= k < 12) ==> q[k] == p[k]
  }

  /**
   A packet survives `n` hops exactly when its hop limit exceeds `n`; it then arrives
   with the hop limit lowered by `n`, no other byte changed but the IPv4 checksum, and
   the same inspected description, so every hop sees the same flow.
   */
  lemma {:induction false} Travels(p: Bytes, n: nat)
    requires Inspect(p).Ok?
    ensures Travel(p, n).Ok? <==> n == 0 || n < HopLimit(p)
    ensures Travel(p, n).Ok? ==>
              var q := Travel(p, n).value;
              Inspect(q) == Inspect(p) && Version(q) == Version(p) &&
              SameBut(p, q) && HopLimit(q) == HopLimit(p) - n
    decreases n
  {
    if n > 0 && HopLimit(p) > 1 {
      OneHop(p);
      HopKeepsInfo(p);
      Travels(Decremented(p), n - 1);
    }
  }

  /** Over any number of hops an IPv4 header checksum is valid at the end exactly when it was at the start. */
  lemma {:induction false} TravelKeepsChecksum(p: Bytes, n: nat)
    requires Inspect(p).Ok? && Version(p) == 4 && Travel(p, n).Ok?
    ensures var q := Travel(p, n).value;
            Inspect(q).Ok? && Version(q) == 4 && (ChecksumValid(q) <==> ChecksumValid(p))
    decreases n
  {
    if n > 0 {
      HopKeepsChecksum(p);
      TravelKeepsChecksum(Decremented(p), n - 1);
    }
  }
}
