/** Which packets the kernel policy of a negotiated selector pair matches, and when those are the negotiated ones. */
module PolicyExact {
  import opened Wire
  import opened IkeCodec
  import opened Prefix
  import Sel = Selectors

  // ---------------------------------------------------------------- addresses

  /** Every CIDR block that holds both ends holds `x`: it is in the smallest one. */
  predicate InEveryBlock(w: nat, start: nat, end: nat, x: nat) {
    forall p: nat | p <= w :: InBlock(w, start, p, end) ==> InBlock(w, start, p, x)
  }

  lemma EveryBlockIs(w: nat, start: nat, end: nat, x: nat)
    requires start < Pow2(w) && end < Pow2(w) && x < Pow2(w)
    ensures InEveryBlock(w, start, end, x) <==> InBlock(w, start, CommonPrefix(w, start, end), x)
  {
    hide CommonPrefix, Pow2, InBlock;
    var n := CommonPrefix(w, start, end);
    CommonPrefixIs(w, start, end, n);
    if InBlock(w, start, n, x) {
      forall p: nat | p <= w && InBlock(w, start, p, end) ensures InBlock(w, start, p, x) {
        CommonPrefixIs(w, start, end, p);
        Coarser(w, start, n, p, x);
      }
    }
  }

  /** The addresses of the smallest CIDR block around a selector's range; the whole family if the ends mix families. */
  predicate InSmallestBlock(s: Sel.Selector, address: Ip) {
    && address.V4? == s.start.V4?
    && (s.end.V4? == s.start.V4? ==> InEveryBlock(Width(s.start), Number(s.start), Number(s.end), Number(address)))
  }

  lemma AddressExact(s: Sel.Selector, address: Ip)
    ensures AddressMatch(address, s.start, PolicyPrefixLen(s.start, s.end)) <==> InSmallestBlock(s, address)
  {
    hide CommonPrefix, InBlock, InEveryBlock, Pow2;
    SameLen(s.start);
    NumberFits(s.start);
    NumberFits(address);
    NumberFits(s.end);
    if address.V4? == s.start.V4? {
      if s.start.V4? == s.end.V4? {
        EveryBlockIs(Width(s.start), Number(s.start), Number(s.end), Number(address));
      } else {
        WholeBlock(Width(s.start), Number(s.start), Number(address));
      }
    }
  }

  /** A selector converts to a network exactly when its ends are of one family, and the network is then the smallest
      CIDR block around the range. */
  lemma NetIsSmallest(s: Sel.Selector, address: Ip)
    ensures SelectorToNet(s).Some? <==> s.start.V4? == s.end.V4?
    ensures SelectorToNet(s).Some? ==>
      var n := SelectorToNet(s).value;
      n == NetOf(s) && ValidNet(n) && n.address == s.start
      && (AddressMatch(address, n.address, n.prefixLen) <==> InSmallestBlock(s, address))
  {
    hide CommonPrefix, InBlock, InEveryBlock, Pow2;
    SameLen(s.start);
    AddressExact(s, address);
  }

  // -------------------------------------------------------------------- ports

  predicate PortIn(s: Sel.Selector, port: u16) { s.startPort == s.endPort ==> port == s.startPort }

  lemma Pow2Sixteen()
    ensures Pow2(16) == 0x1_0000
  {
    hide Pow2;
    Pow2Four();
    Doubled(4, 0x10);
    Doubled(8, 0x100);
  }

  lemma FullMask(a: u16, b: u16)
    ensures And(16, Xor(16, a, b), 0xffff) == 0 <==> a == b
  {
    hide And, Xor, Pow2;
    Pow2Sixteen();
    XorBelow(16, 16, a, b);
    ShiftOut(16, a);
    ShiftOut(16, b);
    AndMask(16, 0, Xor(16, a, b));
    XorBelow(16, 0, a, b);
    One();
  }

  lemma One()
    ensures Pow2(0) == 1
  {
  }

  lemma PortExact(s: Sel.Selector, port: u16)
    ensures PortMatch(port, s.startPort, PortMask(s)) <==> PortIn(s, port)
  {
    FullMask(port, s.startPort);
    hide And, Xor;
    AndZero(16, Xor(16, port, s.startPort), 0);
  }

  // ------------------------------------------------------------------- policy

  /** A policy is built exactly when both selectors start in the same family, and it matches exactly the packets whose
      addresses lie in the smallest CIDR blocks around the two ranges, whose protocol is the source selector's unless
      that is any, and whose ports are the single ports of the selectors that name one. */
  lemma PolicyIs(source: Sel.Selector, destination: Sel.Selector, f: Flow)
    ensures var k := BuildPolicy(source, destination);
      && (k.Ok? <==> source.start.V4? == destination.start.V4?)
      && (k.Ok? ==>
          (PolicyMatches(k.value, f) <==>
           && InSmallestBlock(source, f.src) && InSmallestBlock(destination, f.dst)
           && (source.protocol == 0 || source.protocol == f.proto)
           && PortIn(source, f.sport) && PortIn(destination, f.dport)))
  {
    AddressExact(source, f.src);
    AddressExact(destination, f.dst);
    PortExact(source, f.sport);
    PortExact(destination, f.dport);
    hide AddressMatch, PortMatch, PolicyPrefixLen, PortMask, InSmallestBlock, PortIn;
  }

  // ------------------------------------------------- when it is exactly right

  /** The selector's range is not empty and stays in one family. */
  predicate Ordered(s: Sel.Selector) {
    s.start.V4? == s.end.V4? && Number(s.start) <= Number(s.end) && s.startPort <= s.endPort
  }

  /** The range is one block of 2^k addresses that starts with its low k bits clear. */
  predicate IsBlock(s: Sel.Selector) {
    exists k: nat | k <= Width(s.start) :: BlockOf(Number(s.start), Number(s.end), k)
  }

  predicate BlockOf(start: nat, end: nat, k: nat) { Clear(k, start) == start && end == start + (Pow2(k) - 1) }

  predicate OnePortOrAll(s: Sel.Selector) { s.startPort == s.endPort || (s.startPort == 0 && s.endPort == 0xffff) }

  lemma ContainsIs(s: Sel.Selector, address: Ip)
    requires Ordered(s)
    ensures Sel.Contains(s, address) <==>
      address.V4? == s.start.V4? && Number(s.start) <= Number(address) <= Number(s.end)
  {
  }

  /** A range that is a block is its own smallest block. */
  lemma BlockIsSmallest(w: nat, start: nat, end: nat, k: nat, x: nat)
    requires k <= w && BlockOf(start, end, k) && end < Pow2(w) && x < Pow2(w)
    ensures InEveryBlock(w, start, end, x) <==> start <= x <= end
  {
    hide CommonPrefix, InBlock, Clear, Shift, Pow2;
    EveryBlockIs(w, start, end, x);
    SmallestBlock(w, start, end, start, 0, x);
    BlockMeans(w, start, end, k, end);
    BlockMeans(w, start, end, k, x);
  }

  lemma BlockMeans(w: nat, start: nat, end: nat, k: nat, x: nat)
    requires k <= w && BlockOf(start, end, k)
    ensures start <= end
    ensures start <= x <= end <==> InBlock(w, start, w - k, x)
  {
    hide Clear, Shift, Pow2;
    ClearRange(k, start, x);
  }

  /** The ends of the smallest block are in it; if they are the ends of the range, the range is that block. */
  lemma SmallestEnds(w: nat, start: nat, end: nat)
    returns (first: nat, last: nat)
    requires start <= end < Pow2(w)
    ensures first <= start && end <= last < Pow2(w)
    ensures InEveryBlock(w, start, end, first) && InEveryBlock(w, start, end, last)
    ensures first == start && last == end ==> exists k: nat | k <= w :: BlockOf(start, end, k)
  {
    hide CommonPrefix, InEveryBlock, InBlock, First, Last, Pow2, BlockOf;
    var n := CommonPrefix(w, start, end);
    first, last := First(w, start, n), Last(w, start, n);
    SmallestBlock(w, start, end, start, 0, end);
    SmallestBlock(w, start, end, start, 0, start);
    BlockIsRange(w, start, n, end);
    BlockIsRange(w, start, n, start);
    BlockIsRange(w, start, n, first);
    BlockIsRange(w, start, n, last);
    EveryBlockIs(w, start, end, first);
    EveryBlockIs(w, start, end, last);
    if first == start && last == end {
      EndsAre(w, start, n);
      BlockMade(start, end, w - n);
    }
  }

  lemma BlockMade(start: nat, end: nat, k: nat)
    requires Clear(k, start) == start && end == start + (Pow2(k) - 1)
    ensures BlockOf(start, end, k)
  {
  }

  /** The policy matches exactly the negotiated packets. */
  ghost predicate Faithful(source: Sel.Selector, destination: Sel.Selector, k: PolicySelector) {
    forall f: Flow ::
      PolicyMatches(k, f) <==>
      Sel.Matches(source, Sel.Packet(f.src, f.proto, f.sport)) && Sel.Matches(destination, Sel.Packet(f.dst, f.proto, f.dport))
  }

  /** What a caller can read off the selectors. */
  predicate Representable(source: Sel.Selector, destination: Sel.Selector) {
    && IsBlock(source) && IsBlock(destination)
    && (destination.protocol == 0 || destination.protocol == source.protocol)
    && OnePortOrAll(source) && OnePortOrAll(destination)
  }

  lemma BlockContains(s: Sel.Selector, address: Ip)
    requires Ordered(s) && IsBlock(s)
    ensures InSmallestBlock(s, address) <==> Sel.Contains(s, address)
  {
    hide InEveryBlock, Pow2;
    NumberFits(s.end);
    NumberFits(address);
    ContainsIs(s, address);
    var k: nat :| k <= Width(s.start) && BlockOf(Number(s.start), Number(s.end), k);
    if address.V4? == s.start.V4? {
      BlockIsSmallest(Width(s.start), Number(s.start), Number(s.end), k, Number(address));
    }
  }

  /** The kernel policy of a pair of non-empty ranges matches exactly the negotiated packets if and only if both ranges
      are CIDR blocks, each names one port or all, and the destination asks for no protocol the source does not. */
  lemma FaithfulExactly(source: Sel.Selector, destination: Sel.Selector)
    requires Ordered(source) && Ordered(destination) && source.start.V4? == destination.start.V4?
    ensures BuildPolicy(source, destination).Ok?
    ensures Faithful(source, destination, BuildPolicy(source, destination).value) <==> Representable(source, destination)
  {
    hide PolicyMatches, InSmallestBlock, IsBlock, Sel.Contains;
    var k := BuildPolicy(source, destination).value;
    if Representable(source, destination) {
      forall f: Flow ensures PolicyMatches(k, f) <==>
        Sel.Matches(source, Sel.Packet(f.src, f.proto, f.sport)) && Sel.Matches(destination, Sel.Packet(f.dst, f.proto, f.dport))
      {
        PolicyIs(source, destination, f);
        BlockContains(source, f.src);
        BlockContains(destination, f.dst);
      }
    }
    if Faithful(source, destination, k) {
      NeedsBlocks(source, destination, k);
      NeedsPorts(source, destination, k);
    }
  }

  lemma StartInside(s: Sel.Selector)
    requires Ordered(s)
    ensures InSmallestBlock(s, s.start)
  {
  }

  /** A flow the policy matches, from addresses and ports inside what it covers. */
  lemma Agree(source: Sel.Selector, destination: Sel.Selector, k: PolicySelector, f: Flow)
    requires BuildPolicy(source, destination) == Ok(k) && Faithful(source, destination, k)
    requires InSmallestBlock(source, f.src) && InSmallestBlock(destination, f.dst)
    requires source.protocol == 0 || source.protocol == f.proto
    requires PortIn(source, f.sport) && PortIn(destination, f.dport)
    ensures Sel.Matches(source, Sel.Packet(f.src, f.proto, f.sport))
    ensures Sel.Matches(destination, Sel.Packet(f.dst, f.proto, f.dport))
  {
    hide PolicyMatches, InSmallestBlock, Sel.Matches, BuildPolicy, PortIn;
    PolicyIs(source, destination, f);
  }

  lemma NeedsBlocks(source: Sel.Selector, destination: Sel.Selector, k: PolicySelector)
    requires Ordered(source) && Ordered(destination)
    requires BuildPolicy(source, destination) == Ok(k) && Faithful(source, destination, k)
    ensures IsBlock(source) && IsBlock(destination)
  {
    hide Faithful, BuildPolicy, InEveryBlock, Pow2, BlockOf, Sel.Contains;
    StartInside(source);
    StartInside(destination);
    NumberFits(source.end);
    NumberFits(destination.end);
    var first, last := SmallestEnds(Width(source.start), Number(source.start), Number(source.end));
    var low, high := SmallestEnds(Width(destination.start), Number(destination.start), Number(destination.end));
    var sp, dp, proto := source.startPort, destination.startPort, source.protocol;
    var a, b := Like(source.start, first), Like(source.start, last);
    var c, d := Like(destination.start, low), Like(destination.start, high);
    Agree(source, destination, k, Flow(a, c, proto, sp, dp));
    Agree(source, destination, k, Flow(b, d, proto, sp, dp));
    ContainsIs(source, a);
    ContainsIs(source, b);
    ContainsIs(destination, c);
    ContainsIs(destination, d);
  }

  lemma NeedsPorts(source: Sel.Selector, destination: Sel.Selector, k: PolicySelector)
    requires Ordered(source) && Ordered(destination)
    requires BuildPolicy(source, destination) == Ok(k) && Faithful(source, destination, k)
    ensures OnePortOrAll(source) && OnePortOrAll(destination)
    ensures destination.protocol == 0 || destination.protocol == source.protocol
  {
    StartInside(source);
    StartInside(destination);
    hide Faithful, BuildPolicy, InSmallestBlock, Sel.Contains;
    var a, b, proto := source.start, destination.start, source.protocol;
    var sp, dp := source.startPort, destination.startPort;
    var s0, s1: u16 := if PortIn(source, 0) then 0 else sp, if PortIn(source, 0xffff) then 0xffff else sp;
    var d0, d1: u16 := if PortIn(destination, 0) then 0 else dp, if PortIn(destination, 0xffff) then 0xffff else dp;
    Agree(source, destination, k, Flow(a, b, proto, s0, d0));
    Agree(source, destination, k, Flow(a, b, proto, s1, d1));
    if proto == 0 {
      Agree(source, destination, k, Flow(a, b, if destination.protocol == 1 then 2 else 1, sp, dp));
    }
  }

  /** Ranges that are not representable: 10.0.0.1 to 10.0.0.2 is no block, 80 to 81 neither one port nor all. */
  lemma TooWide()
    ensures var s := Sel.Selector(V4(0x0a000001), V4(0x0a000002), 6, 80, 81);
      var d := Sel.Selector(V4(0x0a000100), V4(0x0a0001ff), 6, 0, 0xffff);
      BuildPolicy(s, d).Ok? && !Faithful(s, d, BuildPolicy(s, d).value)
  {
    FaithfulExactly(Sel.Selector(V4(0x0a000001), V4(0x0a000002), 6, 80, 81),
                    Sel.Selector(V4(0x0a000100), V4(0x0a0001ff), 6, 0, 0xffff));
    hide IsBlock, Faithful;
  }
}
