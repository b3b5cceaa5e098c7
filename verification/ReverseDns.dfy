/**
 Reverse-DNS routing domains of an address prefix. A domain is its list of numeric
 labels, most specific first, below `in-addr.arpa` (labels of eight bits, section 3.5
 of RFC 1035) or `ip6.arpa` (labels of four bits, section 2.5 of RFC 3596).
 */
module ReverseDns {
  import opened Blocks

  datatype Family = V4 | V6

  type Domain = seq<nat>

  function Width(f: Family): nat {
    if f.V4? then 32 else 128
  }

  /** The bits of one label. */
  function Unit(f: Family): nat {
    if f.V4? then 8 else 4
  }

  /** The labels of a whole address. */
  function Depth(f: Family): nat {
    if f.V4? then 4 else 32
  }

  /** The bits that `n` labels fix. */
  function Bits(f: Family, n: nat): (bits: nat)
    ensures n <= Depth(f) ==> bits <= Width(f)
  {
    if f.V4? then 8 * n else 4 * n
  }

  // ------------------------------------------------------------------ the source

  /** The labels needed to fix at least `length` bits. */
  function LabelCount(f: Family, length: nat): (n: nat)
    requires length <= Width(f)
    ensures n <= Depth(f) && length <= Bits(f, n) < length + Unit(f)
  {
    if f.V4? then (length + 7) / 8 else (length + 3) / 4
  }

  function Count(f: Family, length: nat): (count: nat)
    requires length <= Width(f)
    ensures count > 0
  {
    Pow2(Bits(f, LabelCount(f, length)) - length)
  }

  function Step(f: Family, length: nat): nat
    requires length <= Width(f)
  {
    if LabelCount(f, length) == 0 then 0 else Block(f, LabelCount(f, length))
  }

  /** The label at depth `i`, counted from the most significant bits. */
  function Digit(f: Family, address: nat, i: nat): nat
    requires i < Depth(f)
  {
    address / Block(f, i + 1) % Pow2(Unit(f))
  }

  function Labels(f: Family, address: nat, n: nat): (domain: Domain)
    requires n <= Depth(f)
    ensures |domain| == n
  {
    seq(n, k requires 0 <= k < n => Digit(f, address, n - 1 - k))
  }

  function Start(f: Family, network: nat, length: nat, offset: nat): nat
    requires length <= Width(f)
  {
    network + offset * Step(f, length)
  }

  function ReverseDomains(f: Family, network: nat, length: nat): (domains: seq<Domain>)
    requires length <= Width(f)
    ensures |domains| == Count(f, length)
    ensures forall i :: 0 <= i < |domains| ==> |domains[i]| == LabelCount(f, length)
  {
    seq(Count(f, length), offset requires 0 <= offset < Count(f, length) =>
      Labels(f, Start(f, network, length, offset), LabelCount(f, length)))
  }

  // -------------------------------------------------------------------- meaning

  /** The number of addresses that share their first `n` labels. */
  function Block(f: Family, n: nat): (size: nat)
    requires n <= Depth(f)
    ensures size > 0
  {
    Pow2(Width(f) - Bits(f, n))
  }

  predicate IsAddress(f: Family, address: nat) {
    address < Pow2(Width(f))
  }

  /** The addresses whose reverse name lies in the domain. */
  predicate InDomain(f: Family, address: nat, domain: Domain) {
    |domain| <= Depth(f) && domain == Labels(f, address, |domain|)
  }

  function PrefixSize(f: Family, length: nat): (size: nat)
    requires length <= Width(f)
    ensures size > 0
  {
    Pow2(Width(f) - length)
  }

  /** The addresses of the prefix. */
  predicate InPrefix(f: Family, address: nat, network: nat, length: nat)
    requires length <= Width(f)
  {
    address / PrefixSize(f, length) == network / PrefixSize(f, length)
  }

  predicate IsNetwork(f: Family, network: nat, length: nat)
    requires length <= Width(f)
  {
    IsAddress(f, network) && network % PrefixSize(f, length) == 0
  }

  // ------------------------------------------------------------ labels and blocks

  lemma LastLabel(f: Family, a: nat, n: nat)
    requires 0 < n <= Depth(f)
    ensures Labels(f, a, n) == [Digit(f, a, n - 1)] + Labels(f, a, n - 1)
  {
  }

  lemma OneMoreLabel(f: Family, a: nat, b: nat, n: nat)
    requires 0 < n <= Depth(f)
    ensures Labels(f, a, n) == Labels(f, b, n) <==>
              Digit(f, a, n - 1) == Digit(f, b, n - 1) && Labels(f, a, n - 1) == Labels(f, b, n - 1)
  {
    LastLabel(f, a, n);
    LastLabel(f, b, n);
    SameTails(Digit(f, a, n - 1), Digit(f, b, n - 1), Labels(f, a, n - 1), Labels(f, b, n - 1));
  }

  lemma SameTails(x: nat, y: nat, s: Domain, t: Domain)
    ensures [x] + s == [y] + t <==> x == y && s == t
  {
    var u, v := [x] + s, [y] + t;
    assert u[0] == x && v[0] == y && u[1..] == s && v[1..] == t;
  }

  lemma Quotients(x: nat, y: nat, unit: nat)
    requires unit > 0
    ensures x == y <==> x / unit == y / unit && x % unit == y % unit
  {
    DivMod(x, unit);
    DivMod(y, unit);
  }

  lemma FinerBlocks(a: nat, b: nat, size: nat, unit: nat)
    requires size > 0 && unit > 0
    ensures size * unit > 0
    ensures a / size == b / size <==>
              a / (size * unit) == b / (size * unit) && a / size % unit == b / size % unit
  {
    DivDiv(a, size, unit);
    DivDiv(b, size, unit);
    Quotients(a / size, b / size, unit);
  }

  lemma BlockSplits(f: Family, n: nat)
    requires 0 < n <= Depth(f)
    ensures Block(f, n - 1) == Block(f, n) * Pow2(Unit(f))
  {
    Pow2Add(Width(f) - Bits(f, n), Unit(f));
  }

  /** Equal leading labels mean the same block of that size. */
  lemma {:induction false} SameLabelsSameBlock(f: Family, a: nat, b: nat, n: nat)
    requires n <= Depth(f) && IsAddress(f, a) && IsAddress(f, b)
    ensures Labels(f, a, n) == Labels(f, b, n) <==> a / Block(f, n) == b / Block(f, n)
  {
    if n == 0 {
      DivUnique(a, Block(f, 0), 0, a);
      DivUnique(b, Block(f, 0), 0, b);
    } else {
      OneMoreLabel(f, a, b, n);
      SameLabelsSameBlock(f, a, b, n - 1);
      BlockSplits(f, n);
      FinerBlocks(a, b, Block(f, n), Pow2(Unit(f)));
    }
  }

  // ---------------------------------------------------------------------- cover

  /** The prefix is `Count` blocks of the size of one domain. */
  lemma Sizes(f: Family, length: nat)
    requires length <= Width(f)
    ensures PrefixSize(f, length) == Block(f, LabelCount(f, length)) * Count(f, length)
    ensures Step(f, length) == Block(f, LabelCount(f, length)) || Count(f, length) == 1
  {
    Pow2Add(Width(f) - Bits(f, LabelCount(f, length)), Bits(f, LabelCount(f, length)) - length);
  }

  /** Block number `offset` of a run of `count` blocks that starts at a multiple of the run's size. */
  lemma NthBlock(block: nat, count: nat, network: nat, offset: nat)
    requires block > 0 && count > 0 && offset < count
    requires block * count > 0 && network % (block * count) == 0
    ensures (network + offset * block) / block == (network / (block * count)) * count + offset
  {
    var k := network / (block * count);
    DivMod(network, block * count);
    Recompose(block, count, k, offset, 0);
    assert block * (count * k + offset) == network + offset * block;
    DivUnique(network + offset * block, block, count * k + offset, 0);
  }

  lemma RunFits(size: nat, parts: nat, network: nat)
    requires size > 0 && network % size == 0 && network < size * parts
    ensures network + size <= size * parts
  {
    var k := network / size;
    DivMod(network, size);
    if k >= parts {
      MulMonotone(size, parts, k);
    }
    MulMonotone(size, k + 1, parts);
    assert size * (k + 1) == size * k + size;
  }

  lemma OffsetFits(network: nat, block: nat, count: nat, total: nat, offset: nat)
    requires offset < count && block > 0 && network + block * count <= total
    ensures network + offset * block < total
  {
    Remainder(block, count, offset, 0);
    assert block * offset == offset * block;
  }

  lemma PrefixFits(f: Family, network: nat, length: nat)
    requires length <= Width(f) && IsNetwork(f, network, length)
    ensures network + PrefixSize(f, length) <= Pow2(Width(f))
  {
    Pow2Add(Width(f) - length, length);
    RunFits(PrefixSize(f, length), Pow2(length), network);
  }

  lemma StepIsBlock(step: nat, block: nat, count: nat, offset: nat)
    requires offset < count && (step == block || count == 1)
    ensures offset * step == offset * block
  {
  }

  /** No address computation leaves the family's range. */
  lemma NoOverflow(f: Family, network: nat, length: nat, offset: nat)
    requires length <= Width(f) && IsNetwork(f, network, length) && offset < Count(f, length)
    ensures IsAddress(f, Start(f, network, length, offset))
    ensures Start(f, network, length, offset) == network + offset * Block(f, LabelCount(f, length))
  {
    var block, count := Block(f, LabelCount(f, length)), Count(f, length);
    Sizes(f, length);
    PrefixFits(f, network, length);
    OffsetFits(network, block, count, Pow2(Width(f)), offset);
    StepIsBlock(Step(f, length), block, count, offset);
  }

  /** The number of the domain-sized block an address lies in. */
  function BlockNumber(f: Family, address: nat, length: nat): int
    requires length <= Width(f)
  {
    address / Block(f, LabelCount(f, length))
  }

  /** The number of the prefix's first block. */
  function FirstBlock(f: Family, network: nat, length: nat): int
    requires length <= Width(f)
  {
    (network / PrefixSize(f, length)) * Count(f, length)
  }

  /** Domain `i` of a prefix is block `i` of the prefix. */
  lemma InDomainExactly(f: Family, network: nat, length: nat, address: nat, i: nat)
    requires length <= Width(f) && IsNetwork(f, network, length) && IsAddress(f, address)
    requires i < Count(f, length)
    ensures InDomain(f, address, ReverseDomains(f, network, length)[i]) <==>
              BlockNumber(f, address, length) == FirstBlock(f, network, length) + i
  {
    var n := LabelCount(f, length);
    NoOverflow(f, network, length, i);
    SameLabelsSameBlock(f, Start(f, network, length, i), address, n);
    Sizes(f, length);
    NthBlock(Block(f, n), Count(f, length), network, i);
  }

  /** Distinct domains of one prefix share no address. */
  lemma DomainsDisjoint(f: Family, network: nat, length: nat, address: nat, i: nat, j: nat)
    requires length <= Width(f) && IsNetwork(f, network, length) && IsAddress(f, address)
    requires i < Count(f, length) && j < Count(f, length)
    requires InDomain(f, address, ReverseDomains(f, network, length)[i])
    requires InDomain(f, address, ReverseDomains(f, network, length)[j])
    ensures i == j
  {
    InDomainExactly(f, network, length, address, i);
    InDomainExactly(f, network, length, address, j);
  }

  /** An address lies in a run of blocks exactly when its block number lies in the run's range. */
  lemma PlaceInRun(address: nat, size: nat, block: nat, count: nat, k: int)
    requires block > 0 && count > 0 && size == block * count && size > 0
    ensures address / size == k <==> 0 <= address / block - k * count < count
  {
    DivDiv(address, block, count);
    var q := address / block;
    DivMod(q, count);
    if 0 <= q - k * count < count {
      if k < 0 {
        MulMonotone(count, 1, 0 - k);
      }
      DivUnique(q, count, k, q - k * count);
    }
  }

  /** The prefix is the run of its `Count` blocks. */
  lemma InPrefixExactly(f: Family, network: nat, length: nat, address: nat)
    requires length <= Width(f)
    ensures InPrefix(f, address, network, length) <==>
              0 <= BlockNumber(f, address, length) - FirstBlock(f, network, length) < Count(f, length)
  {
    Sizes(f, length);
    var size, block := PrefixSize(f, length), Block(f, LabelCount(f, length));
    PlaceInRun(address, size, block, Count(f, length), network / size);
  }

  /**
   Exact cover: the union of the prefix's domains is the prefix, nothing broader and
   nothing narrower.
   */
  lemma ExactCover(f: Family, network: nat, length: nat, address: nat)
    requires length <= Width(f) && IsNetwork(f, network, length) && IsAddress(f, address)
    ensures InPrefix(f, address, network, length) <==>
              exists i :: 0 <= i < Count(f, length) && InDomain(f, address, ReverseDomains(f, network, length)[i])
  {
    InPrefixExactly(f, network, length, address);
    if InPrefix(f, address, network, length) {
      var i := BlockNumber(f, address, length) - FirstBlock(f, network, length);
      InDomainExactly(f, network, length, address, i);
      assert InDomain(f, address, ReverseDomains(f, network, length)[i]);
    } else {
      forall i | 0 <= i < Count(f, length)
        ensures !InDomain(f, address, ReverseDomains(f, network, length)[i])
      {
        InDomainExactly(f, network, length, address, i);
      }
    }
  }

  // ------------------------------------------------------------------- smallest

  /** The addresses below a name of `m` labels, `x` being one of them, all lie in the prefix. */
  ghost predicate NameInside(f: Family, x: nat, m: nat, network: nat, length: nat)
    requires m <= Depth(f) && length <= Width(f)
  {
    forall a: nat :: IsAddress(f, a) && Labels(f, a, m) == Labels(f, x, m) ==> InPrefix(f, a, network, length)
  }

  lemma TwoBlocks(x: nat, wide: nat, size: nat, parts: nat)
    requires size > 0 && wide >= 2 * size && x < wide * parts
    ensures Base(x, wide) + size < wide * parts
    ensures Base(x, wide) / wide == x / wide == (Base(x, wide) + size) / wide
    ensures Base(x, wide) / size != (Base(x, wide) + size) / size
  {
    var a := Base(x, wide);
    BaseInBlock(x, wide);
    DivUnique(a, wide, x / wide, 0);
    RunFits(wide, parts, a);
    SameBlock(a + size, x, wide);
    DivMod(a, size);
    DivUnique(a + size, size, a / size + 1, a % size);
  }

  /** Two addresses below a name shorter than the prefix, one prefix apart. */
  lemma Straddle(f: Family, length: nat, x: nat, m: nat) returns (a: nat, b: nat)
    requires m <= Depth(f) && Bits(f, m) < length <= Width(f) && IsAddress(f, x)
    ensures IsAddress(f, a) && IsAddress(f, b)
    ensures a / Block(f, m) == x / Block(f, m) == b / Block(f, m)
    ensures a / PrefixSize(f, length) != b / PrefixSize(f, length)
  {
    WideBlock(f, length, m);
    TwoBlocks(x, Block(f, m), PrefixSize(f, length), Pow2(Bits(f, m)));
    a := Base(x, Block(f, m));
    b := a + PrefixSize(f, length);
  }

  /** A name shorter than the prefix has an address outside it. */
  lemma ShortNameLeaves(f: Family, network: nat, length: nat, x: nat, m: nat)
    requires m <= Depth(f) && Bits(f, m) < length <= Width(f) && IsAddress(f, x)
    ensures !NameInside(f, x, m, network, length)
  {
    var a, b := Straddle(f, length, x, m);
    SameLabelsSameBlock(f, a, x, m);
    SameLabelsSameBlock(f, b, x, m);
    assert !InPrefix(f, a, network, length) || !InPrefix(f, b, network, length);
  }

  lemma WideBlock(f: Family, length: nat, m: nat)
    requires m <= Depth(f) && Bits(f, m) < length <= Width(f)
    ensures Block(f, m) >= 2 * PrefixSize(f, length)
    ensures Block(f, m) * Pow2(Bits(f, m)) == Pow2(Width(f))
  {
    var width, bits: nat := Width(f), Bits(f, m);
    Pow2Add(width - length, length - bits);
    AtLeastTwo(PrefixSize(f, length), length - bits);
    Pow2Add(width - bits, bits);
  }

  lemma AtLeastTwo(size: nat, e: nat)
    requires e > 0
    ensures size * Pow2(e) >= 2 * size
  {
    assert Pow2(e) == 2 * Pow2(e - 1);
    MulMonotone(size, 2, Pow2(e));
  }

  /**
   Smallest set: a name all of whose addresses lie in the prefix lies inside a single
   domain of the prefix, so no set of names that avoids broader prefixes has fewer.
   */
  lemma Coarsest(f: Family, network: nat, length: nat, x: nat, m: nat)
    requires length <= Width(f) && IsNetwork(f, network, length) && IsAddress(f, x)
    requires m <= Depth(f) && NameInside(f, x, m, network, length)
    ensures exists i :: 0 <= i < Count(f, length) &&
              forall a: nat :: IsAddress(f, a) && Labels(f, a, m) == Labels(f, x, m) ==>
                InDomain(f, a, ReverseDomains(f, network, length)[i])
  {
    assert Labels(f, x, m) == Labels(f, x, m);
    ExactCover(f, network, length, x);
    var i :| 0 <= i < Count(f, length) && InDomain(f, x, ReverseDomains(f, network, length)[i]);
    if Bits(f, m) < length {
      ShortNameLeaves(f, network, length, x, m);
    }
    InDomainExactly(f, network, length, x, i);
    forall a: nat | IsAddress(f, a) && Labels(f, a, m) == Labels(f, x, m)
      ensures InDomain(f, a, ReverseDomains(f, network, length)[i])
    {
      SameLabelsSameBlock(f, a, x, m);
      FewerLabels(f, a, x, LabelCount(f, length), m);
      InDomainExactly(f, network, length, a, i);
    }
  }

  lemma FewerLabels(f: Family, a: nat, x: nat, n: nat, m: nat)
    requires n <= m <= Depth(f) && a / Block(f, m) == x / Block(f, m)
    ensures a / Block(f, n) == x / Block(f, n)
  {
    Pow2Add(Width(f) - Bits(f, m), Bits(f, m) - Bits(f, n));
    CoarserBlock(a, x, Block(f, m), Pow2(Bits(f, m) - Bits(f, n)));
  }

  /** Names none of which reaches outside the prefix and that together cover it. */
  ghost predicate Covers(f: Family, names: seq<Domain>, network: nat, length: nat)
    requires length <= Width(f)
  {
    forall a: nat :: IsAddress(f, a) ==>
      (InPrefix(f, a, network, length) <==> exists j :: 0 <= j < |names| && InDomain(f, a, names[j]))
  }

  /** A name of a cover meets a single domain of the prefix. */
  lemma OneDomain(f: Family, network: nat, length: nat, names: seq<Domain>, j: nat, a: nat, b: nat, i: nat, k: nat)
    requires length <= Width(f) && IsNetwork(f, network, length) && Covers(f, names, network, length)
    requires j < |names| && i < Count(f, length) && k < Count(f, length) && IsAddress(f, a) && IsAddress(f, b)
    requires InDomain(f, a, names[j]) && InDomain(f, b, names[j])
    requires InDomain(f, a, ReverseDomains(f, network, length)[i])
    requires InDomain(f, b, ReverseDomains(f, network, length)[k])
    ensures i == k
  {
    assert NameInside(f, a, |names[j]|, network, length);
    Coarsest(f, network, length, a, |names[j]|);
    var o :| 0 <= o < Count(f, length) &&
      forall c: nat :: IsAddress(f, c) && Labels(f, c, |names[j]|) == Labels(f, a, |names[j]|) ==>
        InDomain(f, c, ReverseDomains(f, network, length)[o]);
    DomainsDisjoint(f, network, length, a, o, i);
    DomainsDisjoint(f, network, length, b, o, k);
  }

  lemma FirstAddress(f: Family, network: nat, length: nat, names: seq<Domain>, i: nat) returns (j: nat)
    requires length <= Width(f) && IsNetwork(f, network, length) && Covers(f, names, network, length)
    requires i < Count(f, length)
    ensures Holds(f, network, length, names, i, j)
  {
    var a := Start(f, network, length, i);
    NoOverflow(f, network, length, i);
    assert InDomain(f, a, ReverseDomains(f, network, length)[i]);
    ExactCover(f, network, length, a);
    j :| 0 <= j < |names| && InDomain(f, a, names[j]);
  }

  /** For each of the first `k` domains, a name that holds its first address. */
  lemma {:induction false} Holders(f: Family, network: nat, length: nat, names: seq<Domain>, k: nat)
    returns (picks: seq<nat>)
    requires length <= Width(f) && IsNetwork(f, network, length) && Covers(f, names, network, length)
    requires k <= Count(f, length)
    ensures |picks| == k
    ensures forall i :: 0 <= i < k ==> Holds(f, network, length, names, i, picks[i])
  {
    picks := [];
    if k > 0 {
      picks := Holders(f, network, length, names, k - 1);
      var j := FirstAddress(f, network, length, names, k - 1);
      picks := picks + [j];
    }
  }

  /** Name `j` holds the first address of domain `i`. */
  ghost predicate Holds(f: Family, network: nat, length: nat, names: seq<Domain>, i: nat, j: nat)
    requires length <= Width(f)
  {
    var a := Start(f, network, length, i);
    && i < Count(f, length) && j < |names|
    && IsAddress(f, a) && InDomain(f, a, ReverseDomains(f, network, length)[i]) && InDomain(f, a, names[j])
  }

  lemma HoldsOnce(f: Family, network: nat, length: nat, names: seq<Domain>, i: nat, k: nat, j: nat)
    requires length <= Width(f) && IsNetwork(f, network, length) && Covers(f, names, network, length)
    requires Holds(f, network, length, names, i, j) && Holds(f, network, length, names, k, j)
    ensures i == k
  {
    OneDomain(f, network, length, names, j, Start(f, network, length, i), Start(f, network, length, k), i, k);
  }

  /** Distinct numbers below `n` are at most `n` many. */
  lemma {:induction false} Pigeonhole(picks: seq<nat>, n: nat)
    requires forall i :: 0 <= i < |picks| ==> picks[i] < n
    requires forall i, k :: 0 <= i < k < |picks| ==> picks[i] != picks[k]
    ensures |picks| <= n
    decreases n
  {
    if |picks| > 0 {
      assert picks[0] < n;
      if i :| 0 <= i < |picks| && picks[i] == n - 1 {
        Pigeonhole(picks[..i] + picks[i + 1..], n - 1);
      } else {
        Pigeonhole(picks, n - 1);
      }
    }
  }

  /** The smallest set: no cover of the prefix by names has fewer names than the prefix has domains. */
  lemma FewestNames(f: Family, network: nat, length: nat, names: seq<Domain>)
    requires length <= Width(f) && IsNetwork(f, network, length) && Covers(f, names, network, length)
    ensures |names| >= |ReverseDomains(f, network, length)|
  {
    var picks := Holders(f, network, length, names, Count(f, length));
    forall i, k | 0 <= i < k < |picks| ensures picks[i] != picks[k] {
      if picks[i] == picks[k] {
        HoldsOnce(f, network, length, names, i, k, picks[i]);
      }
    }
    Pigeonhole(picks, |names|);
  }
}
