/** Prefix arithmetic on 32- and 128-bit addresses (src/ipsec/config.rs) and the kernel policy selector built
    from it (src/ipsec/xfrm/policy.rs). */
module Prefix {
  import opened Wire
  import opened IkeCodec
  import Sel = Selectors

  // -------------------------------------------------------- words as numbers

  function Pow2(n: nat): (p: nat)
    ensures p >= 1
  {
    if n == 0 then 1 else 2 * Pow2(n - 1)
  }

  function And(w: nat, a: nat, b: nat): (r: nat) {
    if w == 0 then 0 else 2 * And(w - 1, a / 2, b / 2) + (if a % 2 == 1 && b % 2 == 1 then 1 else 0)
  }

  function Or(w: nat, a: nat, b: nat): (r: nat) {
    if w == 0 then 0 else 2 * Or(w - 1, a / 2, b / 2) + (if a % 2 == 1 || b % 2 == 1 then 1 else 0)
  }

  function Xor(w: nat, a: nat, b: nat): (r: nat) {
    if w == 0 then 0 else 2 * Xor(w - 1, a / 2, b / 2) + (if a % 2 != b % 2 then 1 else 0)
  }

  /** `leading_zeros` of a `w`-bit word. */
  function LeadingZeros(w: nat, x: nat): (n: nat)
    ensures n <= w
  {
    if w == 0 || x >= Pow2(w - 1) then 0 else 1 + LeadingZeros(w - 1, x)
  }

  /** The top `w - k` bits set: all ones shifted left by `k`. */
  function Mask(w: nat, k: nat): (m: int) { Pow2(w) - Pow2(k) }

  lemma {:induction false} Pow2Mono(a: nat, b: nat)
    requires a <= b
    ensures Pow2(a) <= Pow2(b)
  {
    if a < b {
      Pow2Mono(a, b - 1);
    }
  }

  /** Right shift by `k`. */
  function Shift(k: nat, a: nat): (r: nat) { if k == 0 then a else Shift(k - 1, a / 2) }

  /** `a` with its low `k` bits cleared. */
  function Clear(k: nat, a: nat): (r: nat) { if k == 0 then a else 2 * Clear(k - 1, a / 2) }

  /** One bit at a time: the low bit of both words, then the rest. */
  lemma BitStep(w: nat, x: nat, i: nat, y: nat, j: nat)
    requires w > 0 && i < 2 && j < 2
    ensures And(w, 2 * x + i, 2 * y + j) == 2 * And(w - 1, x, y) + i * j
    ensures Or(w, 2 * x + i, 2 * y + j) == 2 * Or(w - 1, x, y) + (if i + j == 0 then 0 else 1)
  {
    var a, b := 2 * x + i, 2 * y + j;
    assert a / 2 == x && a % 2 == i && b / 2 == y && b % 2 == j;
  }

  lemma NoBits(a: nat, b: nat)
    ensures And(0, a, b) == 0 && Or(0, a, b) == 0
  {
  }

  lemma ClearStep(k: nat, a: nat)
    ensures Clear(0, a) == a && (k > 0 ==> Clear(k, a) == 2 * Clear(k - 1, a / 2))
  {
  }

  lemma Pow2Step(w: nat)
    ensures Pow2(0) == 1 && (w > 0 ==> Pow2(w) == 2 * Pow2(w - 1))
  {
  }

  lemma {:induction false} AndMask(w: nat, k: nat, a: nat)
    requires k <= w && a < Pow2(w)
    ensures Mask(w, k) >= 0 && And(w, a, Mask(w, k)) == Clear(k, a)
  {
    hide And, Clear, Pow2;
    Pow2Mono(k, w);
    Pow2Step(w);
    Pow2Step(k);
    ClearStep(k, a);
    if w == 0 {
      NoBits(a, Mask(0, 0));
    } else if k == 0 {
      AndMask(w - 1, 0, a / 2);
      ClearStep(0, a / 2);
      BitStep(w, a / 2, a % 2, Pow2(w - 1) - 1, 1);
    } else {
      AndMask(w - 1, k - 1, a / 2);
      BitStep(w, a / 2, a % 2, Pow2(w - 1) - Pow2(k - 1), 0);
    }
  }

  lemma {:induction false} OrLow(w: nat, k: nat, a: nat)
    requires k <= w && a < Pow2(w)
    ensures Or(w, a, Pow2(k) - 1) == Clear(k, a) + (Pow2(k) - 1)
  {
    hide Or, Clear, Pow2;
    Pow2Step(w);
    Pow2Step(k);
    ClearStep(k, a);
    if w == 0 {
      NoBits(a, 0);
    } else if k == 0 {
      OrLow(w - 1, 0, a / 2);
      ClearStep(0, a / 2);
      BitStep(w, a / 2, a % 2, 0, 0);
    } else {
      OrLow(w - 1, k - 1, a / 2);
      BitStep(w, a / 2, a % 2, Pow2(k - 1) - 1, 1);
    }
  }

  /** Two words differ only in their low `k` bits exactly when their xor is below 2^k. */
  lemma {:induction false} XorBelow(w: nat, k: nat, a: nat, b: nat)
    requires k <= w && a < Pow2(w) && b < Pow2(w)
    ensures Xor(w, a, b) < Pow2(k) <==> Shift(k, a) == Shift(k, b)
  {
    if w == 0 {
    } else if k == 0 {
      XorBelow(w - 1, 0, a / 2, b / 2);
    } else {
      XorBelow(w - 1, k - 1, a / 2, b / 2);
    }
  }

  /** Words with the same high bits are the ones between the cleared word and the filled one. */
  lemma {:induction false} ClearRange(k: nat, a: nat, x: nat)
    ensures Clear(k, a) <= x <= Clear(k, a) + (Pow2(k) - 1) <==> Shift(k, x) == Shift(k, a)
  {
    if k > 0 {
      ClearRange(k - 1, a / 2, x / 2);
    }
  }

  lemma {:induction false} ClearFits(w: nat, k: nat, a: nat)
    requires k <= w && a < Pow2(w)
    ensures Clear(k, a) + Pow2(k) <= Pow2(w)
  {
    if k > 0 {
      ClearFits(w - 1, k - 1, a / 2);
    }
  }

  /** The ends of a block differ in the first of its `k` host bits. */
  lemma {:induction false} EndsApart(k: nat, a: nat)
    requires k > 0
    ensures Shift(k - 1, Clear(k, a)) != Shift(k - 1, Clear(k, a) + (Pow2(k) - 1))
  {
    if k > 1 {
      EndsApart(k - 1, a / 2);
      assert (2 * Clear(k - 1, a / 2)) / 2 == Clear(k - 1, a / 2);
    } else {
      assert Pow2(1) == 2;
    }
  }

  lemma {:induction false} ShiftOut(w: nat, a: nat)
    requires a < Pow2(w)
    ensures Shift(w, a) == 0 && Clear(w, a) == 0
  {
    if w > 0 {
      ShiftOut(w - 1, a / 2);
    }
  }

  /** `n` leading zeros: below 2^(w - n), and not below the next smaller power. */
  lemma {:induction false} LeadingZerosIs(w: nat, x: nat)
    requires x < Pow2(w)
    ensures var n := LeadingZeros(w, x); x < Pow2(w - n) && (n < w ==> x >= Pow2(w - n - 1))
  {
    if w > 0 && x < Pow2(w - 1) {
      LeadingZerosIs(w - 1, x);
    }
  }

  // ------------------------------------------------------------------ blocks

  /** First address of the block of prefix length `p` around `a`, as the source masks it. */
  function First(w: nat, a: nat, p: nat): (r: nat)
    requires p <= w
  {
    if p == 0 then 0
    else
      Pow2Mono(w - p, w);
      And(w, a, Mask(w, w - p))
  }

  /** Last address: all host bits set. */
  function Last(w: nat, a: nat, p: nat): (r: nat)
    requires p <= w
  {
    Or(w, a, Pow2(w - p) - 1)
  }

  /** `common_prefix_len` on words. */
  function CommonPrefix(w: nat, a: nat, b: nat): (n: nat)
    ensures n <= w
  {
    LeadingZeros(w, Xor(w, a, b))
  }

  /** `x` is in the block of prefix length `p` around `a`: they share their first `p` bits. */
  predicate InBlock(w: nat, a: nat, p: nat, x: nat)
    requires p <= w
  {
    Shift(w - p, x) == Shift(w - p, a)
  }

  lemma EndsAre(w: nat, a: nat, p: nat)
    requires p <= w && a < Pow2(w)
    ensures First(w, a, p) == Clear(w - p, a) && Last(w, a, p) == Clear(w - p, a) + (Pow2(w - p) - 1)
  {
    hide And, Or, Mask;
    AndMask(w, w - p, a);
    OrLow(w, w - p, a);
    if p == 0 {
      ShiftOut(w, a);
    }
  }

  /** The masked ends delimit exactly the words that share the prefix. */
  lemma BlockIsRange(w: nat, a: nat, p: nat, x: nat)
    requires p <= w && a < Pow2(w) && x < Pow2(w)
    ensures First(w, a, p) <= a <= Last(w, a, p) < Pow2(w)
    ensures First(w, a, p) <= x <= Last(w, a, p) <==> InBlock(w, a, p, x)
  {
    hide First, Last, Clear, Shift, Pow2;
    EndsAre(w, a, p);
    ClearRange(w - p, a, x);
    ClearRange(w - p, a, a);
    ClearFits(w, w - p, a);
  }

  lemma {:induction false} PowSplit(a: nat, b: nat)
    ensures Pow2(a + b) == Pow2(b) * Pow2(a)
  {
    if a > 0 {
      PowSplit(a - 1, b);
      assert Pow2(a + b) == 2 * Pow2(a - 1 + b);
      assert Pow2(b) * Pow2(a) == 2 * (Pow2(b) * Pow2(a - 1)) by { MulTwo(Pow2(b), Pow2(a - 1)); }
    }
  }

  lemma MulTwo(x: nat, y: nat)
    ensures x * (2 * y) == 2 * (x * y)
  {
  }

  /** The common prefix is the longest shared one. */
  lemma CommonPrefixIs(w: nat, a: nat, b: nat, p: nat)
    requires a < Pow2(w) && b < Pow2(w) && p <= w
    ensures InBlock(w, a, p, b) <==> p <= CommonPrefix(w, a, b)
  {
    var x := Xor(w, a, b);
    XorBelow(w, w, a, b);
    ShiftOut(w, a);
    ShiftOut(w, b);
    XorBelow(w, w - p, a, b);
    LeadingZerosIs(w, x);
    var n := LeadingZeros(w, x);
    hide Xor, LeadingZeros;
    if p <= n {
      Pow2Mono(w - n, w - p);
    } else {
      Pow2Mono(w - p, w - n - 1);
    }
  }

  /** The block of the common prefix contains the whole range, and every block that contains both ends contains
      that block: it is the smallest CIDR block around the range. */
  lemma SmallestBlock(w: nat, start: nat, end: nat, a: nat, p: nat, x: nat)
    requires start <= end < Pow2(w) && a < Pow2(w) && p <= w
    ensures start <= x <= end ==> InBlock(w, start, CommonPrefix(w, start, end), x)
    ensures InBlock(w, a, p, start) && InBlock(w, a, p, end) ==>
      p <= CommonPrefix(w, start, end)
      && (x < Pow2(w) && InBlock(w, start, CommonPrefix(w, start, end), x) ==> InBlock(w, a, p, x))
  {
    hide CommonPrefix;
    var n := CommonPrefix(w, start, end);
    CommonPrefixIs(w, start, end, n);
    BlockIsRange(w, start, n, end);
    if start <= x <= end {
      BlockIsRange(w, start, n, x);
    }
    if InBlock(w, a, p, start) && InBlock(w, a, p, end) {
      CommonPrefixIs(w, start, end, p);
      if x < Pow2(w) && InBlock(w, start, n, x) {
        Coarser(w, start, n, p, x);
      }
    }
  }

  /** Sharing `n` bits means sharing any fewer. */
  lemma Coarser(w: nat, a: nat, n: nat, p: nat, x: nat)
    requires p <= n <= w && a < Pow2(w) && x < Pow2(w) && InBlock(w, a, n, x)
    ensures InBlock(w, a, p, x)
  {
    hide CommonPrefix;
    CommonPrefixIs(w, a, x, n);
    CommonPrefixIs(w, a, x, p);
  }

  /** A network's range has exactly the network's prefix length in common. */
  lemma NetPrefix(w: nat, a: nat, p: nat)
    requires p <= w && a < Pow2(w)
    ensures CommonPrefix(w, First(w, a, p), Last(w, a, p)) == p
  {
    hide CommonPrefix;
    var f, l := First(w, a, p), Last(w, a, p);
    BlockIsRange(w, a, p, a);
    BlockIsRange(w, a, p, f);
    BlockIsRange(w, a, p, l);
    CommonPrefixIs(w, f, l, p);
    if p < w {
      CommonPrefixIs(w, f, l, p + 1);
      HalfApart(w, a, p);
    }
  }

  lemma HalfApart(w: nat, a: nat, p: nat)
    requires p < w && a < Pow2(w)
    ensures !InBlock(w, First(w, a, p), p + 1, Last(w, a, p))
  {
    hide First, Last, Clear, Shift, Pow2;
    EndsAre(w, a, p);
    EndsApart(w - p, a);
  }

  // --------------------------------------------------------------- addresses

  function Width(a: Ip): (w: nat) { if a.V4? then 32 else 128 }

  function Number(a: Ip): (n: nat) { if a.V4? then a.v4 else a.v6 }

  lemma Doubled(n: nat, v: nat)
    requires Pow2(n) == v
    ensures Pow2(2 * n) == v * v
  {
    PowSplit(n, n);
  }

  lemma Pow2Four()
    ensures Pow2(4) == 16
  {
  }

  lemma Pow2Widths()
    ensures Pow2(32) == 0x1_0000_0000 && Pow2(128) == 0x1_0000_0000_0000_0000_0000_0000_0000_0000
  {
    hide Pow2;
    Pow2Four();
    Doubled(4, 0x10);
    Doubled(8, 0x100);
    Doubled(16, 0x1_0000);
    Doubled(32, 0x1_0000_0000);
    Doubled(64, 0x1_0000_0000_0000_0000);
  }

  lemma NumberFits(a: Ip)
    ensures Number(a) < Pow2(Width(a))
  {
    Pow2Widths();
    hide Pow2;
  }

  /** The address with number `n` in the family of `a`. */
  function Like(a: Ip, n: nat): (r: Ip)
    requires n < Pow2(Width(a))
    ensures Width(r) == Width(a) && Number(r) == n
  {
    Pow2Widths();
    if a.V4? then V4(n) else V6(n)
  }

  datatype IpNet = IpNet(address: Ip, prefixLen: nat)

  /** Addresses come with a prefix length of their family. */
  predicate ValidNet(n: IpNet) { n.prefixLen <= Width(n.address) }

  function NetSelector(n: IpNet): (s: Sel.Selector)
    requires ValidNet(n)
  {
    var w, a, p := Width(n.address), Number(n.address), n.prefixLen;
    NumberFits(n.address);
    BlockIsRange(w, a, p, a);
    Sel.Selector(Like(n.address, First(w, a, p)), Like(n.address, Last(w, a, p)), 0, 0, 0xffff)
  }

  function PrefixLen(start: Ip, end: Ip): (n: nat) {
    if start.V4? == end.V4? then CommonPrefix(Width(start), Number(start), Number(end)) else 0
  }

  /** `IpNet::from`. */
  function NetOf(s: Sel.Selector): (n: IpNet) { IpNet(s.start, PrefixLen(s.start, s.end)) }

  /** `selector_to_net`. */
  function SelectorToNet(s: Sel.Selector): (n: Option<IpNet>) {
    if s.start.V4? != s.end.V4? then None else Some(IpNet(s.start, CommonPrefix(Width(s.start), Number(s.start), Number(s.end))))
  }

  /** A network's selector converts back to its first address and the same prefix length. */
  lemma NetRoundTrip(n: IpNet)
    requires ValidNet(n)
    ensures var s := NetSelector(n);
      && NetOf(s) == IpNet(s.start, n.prefixLen) && SelectorToNet(s) == Some(NetOf(s))
      && Number(s.start) == First(Width(n.address), Number(n.address), n.prefixLen)
  {
    NumberFits(n.address);
    NetPrefix(Width(n.address), Number(n.address), n.prefixLen);
    hide First, Last, CommonPrefix, Pow2;
  }

  // ------------------------------------------------------------------ policy

  /** The kernel's selector: prefixes, protocol, and ports under a mask. */
  datatype PolicySelector = PolicySelector(
    src: Ip, srcLen: nat, dst: Ip, dstLen: nat, proto: u8, sport: u16, sportMask: u16, dport: u16, dportMask: u16)

  function PortMask(s: Sel.Selector): (m: u16) { if s.startPort == s.endPort then 0xffff else 0 }

  function PolicyPrefixLen(start: Ip, end: Ip): (n: nat) {
    if start == end then Width(start) else PrefixLen(start, end)
  }

  /** The selector part of `build`. */
  function BuildPolicy(source: Sel.Selector, destination: Sel.Selector): (r: Result<PolicySelector>) {
    if source.start.V4? != destination.start.V4? then Err
    else
      Ok(PolicySelector(
           source.start, PolicyPrefixLen(source.start, source.end),
           destination.start, PolicyPrefixLen(destination.start, destination.end),
           source.protocol, source.startPort, PortMask(source), destination.startPort, PortMask(destination)))
  }

  /** A packet as the kernel matches it. */
  datatype Flow = Flow(src: Ip, dst: Ip, proto: u8, sport: u16, dport: u16)

  predicate AddressMatch(address: Ip, selector: Ip, len: nat) {
    address.V4? == selector.V4? && len <= Width(selector) && InBlock(Width(selector), Number(selector), len, Number(address))
  }

  predicate PortMatch(port: u16, selector: u16, mask: u16) { And(16, Xor(16, port, selector), mask) == 0 }

  predicate PolicyMatches(k: PolicySelector, f: Flow) {
    && AddressMatch(f.src, k.src, k.srcLen) && AddressMatch(f.dst, k.dst, k.dstLen)
    && (k.proto == 0 || k.proto == f.proto)
    && PortMatch(f.sport, k.sport, k.sportMask) && PortMatch(f.dport, k.dport, k.dportMask)
  }

  lemma {:induction false} XorSelf(w: nat, a: nat)
    ensures Xor(w, a, a) == 0
  {
    if w > 0 {
      XorSelf(w - 1, a / 2);
    }
  }

  lemma {:induction false} AndZero(w: nat, a: nat, b: nat)
    requires a == 0 || b == 0
    ensures And(w, a, b) == 0
  {
    if w > 0 {
      AndZero(w - 1, a / 2, b / 2);
    }
  }

  lemma PortCovered(s: Sel.Selector, port: u16)
    requires s.startPort <= port <= s.endPort
    ensures PortMatch(port, s.startPort, PortMask(s))
  {
    if s.startPort == s.endPort {
      XorSelf(16, port);
    }
    hide Xor;
    AndZero(16, Xor(16, port, s.startPort), PortMask(s));
  }

  lemma SameLen(a: Ip)
    ensures PrefixLen(a, a) == Width(a)
  {
    var w := Width(a);
    XorSelf(w, Number(a));
    ZerosAll(w);
    hide Xor, LeadingZeros;
  }

  lemma {:induction false} ZerosAll(w: nat)
    ensures LeadingZeros(w, 0) == w
  {
    if w > 0 {
      ZerosAll(w - 1);
    }
  }

  lemma AddressCovered(s: Sel.Selector, address: Ip)
    requires Sel.Contains(s, address)
    ensures AddressMatch(address, s.start, PolicyPrefixLen(s.start, s.end))
  {
    hide CommonPrefix, InBlock;
    SameLen(s.start);
    NumberFits(s.start);
    NumberFits(address);
    NumberFits(s.end);
    var w := Width(s.start);
    if s.start.V4? == s.end.V4? {
      SmallestBlock(w, Number(s.start), Number(s.end), Number(s.start), 0, Number(address));
    } else {
      WholeBlock(w, Number(s.start), Number(address));
    }
  }

  lemma WholeBlock(w: nat, a: nat, x: nat)
    requires a < Pow2(w) && x < Pow2(w)
    ensures InBlock(w, a, 0, x)
  {
    ShiftOut(w, a);
    ShiftOut(w, x);
  }

  /** Every packet a negotiated pair of selectors stands for is matched by the kernel policy built from it. */
  lemma PolicyCovers(source: Sel.Selector, destination: Sel.Selector, f: Flow)
    requires Sel.Matches(source, Sel.Packet(f.src, f.proto, f.sport))
    requires Sel.Matches(destination, Sel.Packet(f.dst, f.proto, f.dport))
    ensures var k := BuildPolicy(source, destination); k.Ok? ==> PolicyMatches(k.value, f)
  {
    AddressCovered(source, f.src);
    AddressCovered(destination, f.dst);
    PortCovered(source, f.sport);
    PortCovered(destination, f.dport);
    hide AddressMatch, PortMatch, PolicyPrefixLen, PortMask;
  }
}
