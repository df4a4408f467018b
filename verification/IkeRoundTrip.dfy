/** What the IKEv2 codec prints it reads back, through every level of nesting. */
module IkeRoundTrip {
  import opened Wire
  import opened IkeCodec

  // ------------------------------------------------------------- well-formed

  predicate AttributeFits(a: Attribute) { a.kind < 0x8000 && |a.value| <= 0xffff }

  predicate TransformFits(t: Transform) {
    8 + |AttrsBytes(t.attributes)| <= 0xffff && forall a | a in t.attributes :: AttributeFits(a)
  }

  predicate ProposalFits(p: Proposal) {
    && |p.spi| <= 255 && |p.transforms| <= 255 && 8 + |p.spi| + |TransformsBytes(p.transforms)| <= 0xffff
    && forall t | t in p.transforms :: TransformFits(t)
  }

  predicate SelectorFits(s: TsSelector) {
    (s.kind == 7 && s.start.V4? && s.end.V4?) || (s.kind == 8 && s.start.V6? && s.end.V6?)
  }

  predicate KnownKind(k: u8) { (33 <= k <= 42) || (44 <= k <= 48) }

  /** Every count and length fits its field, and the payload is not the encrypted envelope itself. */
  predicate PayloadFits(p: Payload) {
    match p
    case Sa(proposals) => forall q | q in proposals :: ProposalFits(q)
    case Notify(_, spi, _, _) => |spi| <= 255
    case Delete(_, size, spis) => |spis| <= 0xffff && (size == 4 || size == 8 || (size == 0 && spis == []))
    case Ts(_, selectors) => |selectors| <= 255 && forall s | s in selectors :: SelectorFits(s)
    case Config(attributes) => forall a | a in attributes :: AttributeFits(a)
    case Encrypted(_, _) => false
    case Other(kind, _) => kind != 0 && !KnownKind(kind)
    case _ => true
  }

  predicate BodyFits(p: Payload) { Body(p).Ok? && 4 + |Body(p).value| <= 0xffff }

  predicate ChainFits(ps: seq<Payload>) { forall p | p in ps :: PayloadFits(p) && BodyFits(p) }

  // ------------------------------------------------------------------ layout

  lemma Cut(h: bytes, body: bytes, rest: bytes)
    ensures var b := h + body + rest;
      && |b| == |h| + |body| + |rest| && b[|h|..|h| + |body|] == body && b[|h| + |body|..] == rest
      && b[..|h| + |body|] == h + body && forall i | 0 <= i < |h| :: b[i] == h[i]
  {
  }

  lemma W16Reads(n: u16)
    ensures Read16(W16(n)[0], W16(n)[1]) == n
  {
  }

  lemma Halves(n: u16)
    ensures Read16(n / 256, n % 256) == n && n / 256 % 256 == n / 256
  {
  }

  // -------------------------------------------------------------- proposals

  function Prepend<T>(x: T, r: Result<seq<T>>): (s: Result<seq<T>>) {
    if r.Ok? then Ok([x] + r.value) else Err
  }

  lemma AttrStep(a: Attribute, rest: bytes)
    requires AttributeFits(a)
    ensures ReadAttrs(AttrBytes(a) + rest) == Prepend(a, ReadAttrs(rest))
  {
    if a.kind == 14 && |a.value| == 2 {
      Cut(W16(0x800e), a.value, rest);
      W16Reads(0x800e);
    } else {
      W16Reads(a.kind);
      W16Reads(|a.value|);
      Cut(W16(a.kind) + W16(|a.value|), a.value, rest);
    }
  }

  lemma {:induction false} AttrsRoundTrip(attributes: seq<Attribute>)
    requires forall a | a in attributes :: AttributeFits(a)
    ensures ReadAttrs(AttrsBytes(attributes)) == Ok(attributes)
  {
    if attributes != [] {
      AttrsRoundTrip(attributes[1..]);
      assert AttributeFits(attributes[0]);
      AttrStep(attributes[0], AttrsBytes(attributes[1..]));
      assert attributes == [attributes[0]] + attributes[1..];
    }
  }

  lemma TransformStep(t: Transform, last: bool, count: nat, rest: bytes)
    requires TransformFits(t)
    ensures ReadTransforms(count + 1, TransformHead(t, last) + AttrsBytes(t.attributes) + rest)
         == Prepend(t, ReadTransforms(count, rest))
  {
    AttrsRoundTrip(t.attributes);
    hide ReadAttrs, AttrsBytes;
    var h, body := TransformHead(t, last), AttrsBytes(t.attributes);
    Halves(8 + |body|);
    Halves(t.id);
    Cut(h, body, rest);
    hide Read16;
  }

  lemma {:induction false} TransformsRoundTrip(ts: seq<Transform>)
    requires forall t | t in ts :: TransformFits(t)
    ensures ReadTransforms(|ts|, TransformsBytes(ts)) == Ok(ts)
  {
    if ts != [] {
      TransformsRoundTrip(ts[1..]);
      assert TransformFits(ts[0]);
      TransformStep(ts[0], |ts| == 1, |ts| - 1, TransformsBytes(ts[1..]));
      assert ts == [ts[0]] + ts[1..];
    }
  }

  lemma ReadProposalIs(h: bytes, spi: bytes, ts: bytes)
    requires |h| == 8 && h[6] == |spi|
    ensures ReadProposal(h + (spi + ts))
         == match ReadTransforms(h[7], ts) case Err => Err case Ok(ts) => Ok(Proposal(h[4], h[5], spi, ts))
  {
    hide ReadTransforms;
    var b := h + (spi + ts);
    assert forall i | 0 <= i < 8 :: b[i] == h[i];
    assert b[8..8 + |spi|] == spi;
    assert b[8 + |spi|..] == ts;
  }

  lemma ProposalReads(p: Proposal, last: bool)
    requires ProposalFits(p)
    ensures ReadProposal(ProposalHead(p, last) + (p.spi + TransformsBytes(p.transforms))) == Ok(p)
  {
    hide ReadTransforms, TransformsBytes, ReadProposal, TransformFits;
    TransformsRoundTrip(p.transforms);
    ReadProposalIs(ProposalHead(p, last), p.spi, TransformsBytes(p.transforms));
  }

  lemma ReadSaIs(h: bytes, body: bytes, rest: bytes)
    requires |h| == 8 && Read16(h[2], h[3]) == 8 + |body|
    ensures ReadSa(h + body + rest)
         == match ReadProposal(h + body) case Err => Err case Ok(p) => if h[0] == 0 then Ok([p]) else Prepend(p, ReadSa(rest))
  {
    hide ReadProposal, Read16;
    Cut(h, body, rest);
  }

  lemma ProposalLength(p: Proposal, last: bool)
    requires ProposalFits(p)
    ensures var h := ProposalHead(p, last);
      Read16(h[2], h[3]) == 8 + |p.spi + TransformsBytes(p.transforms)| && (h[0] == 0 <==> last)
  {
    hide TransformsBytes, TransformFits;
    Halves(8 + |p.spi| + |TransformsBytes(p.transforms)|);
  }

  lemma SaStep(p: Proposal, last: bool, rest: bytes)
    requires ProposalFits(p)
    ensures ReadSa(ProposalHead(p, last) + (p.spi + TransformsBytes(p.transforms)) + rest)
         == if last then Ok([p]) else Prepend(p, ReadSa(rest))
  {
    hide ReadProposal, TransformsBytes, ReadSa, ProposalHead, ProposalFits, Read16;
    ProposalReads(p, last);
    ProposalLength(p, last);
    ReadSaIs(ProposalHead(p, last), p.spi + TransformsBytes(p.transforms), rest);
  }

  lemma {:induction false} SaRoundTrip(ps: seq<Proposal>)
    requires forall p | p in ps :: ProposalFits(p)
    ensures SaBytes(ps).Ok? && ReadSa(SaBytes(ps).value) == Ok(ps)
  {
    if ps == [] {
    } else {
      var rest := ps[1..];
      SaRoundTrip(rest);
      assert ProposalFits(ps[0]) && |ps[0].spi| <= 255;
      hide ReadSa, TransformsBytes, ProposalHead, ProposalFits;
      SaStep(ps[0], |ps| == 1, SaBytes(rest).value);
      assert ps == [ps[0]] + rest;
      assert |ps| == 1 ==> ps == [ps[0]];
    }
  }

  // -------------------------------------------------------------- selectors

  lemma Pieces(h: bytes, a: bytes, b: bytes, rest: bytes)
    ensures var s := h + (a + b) + rest;
      s[|h|..|h| + |a|] == a && s[|h| + |a|..|h| + |a| + |b|] == b
  {
  }

  lemma FromBEHalves(w: nat, a: nat, b: nat, h: bytes, rest: bytes)
    requires |h| == 8 && a < Pow256(w) && b < Pow256(w)
    ensures var s := h + (BE(w, a) + BE(w, b)) + rest;
      FromBE(s[8..8 + w]) == a && FromBE(s[8 + w..8 + w + w]) == b
  {
    hide BE, FromBE, Pow256;
    FromBEOfBE(w, a);
    FromBEOfBE(w, b);
    Pieces(h, BE(w, a), BE(w, b), rest);
  }

  lemma AddressesRead(s: TsSelector, rest: bytes)
    requires SelectorFits(s)
    ensures AddressBytes(s).Ok? && |AddressBytes(s).value| == if s.kind == 7 then 8 else 32
    ensures var b := SelectorHead(s) + AddressBytes(s).value + rest;
      ReadAddresses(s.kind, 8 + |AddressBytes(s).value|, b) == Ok((s.start, s.end))
  {
    hide BE, FromBE, Pow256, SelectorHead;
    Widths();
    Width16();
    if s.kind == 7 {
      FromBEHalves(4, s.start.v4, s.end.v4, SelectorHead(s), rest);
    } else {
      FromBEHalves(16, s.start.v6, s.end.v6, SelectorHead(s), rest);
    }
  }

  lemma SelectorStep(s: TsSelector, count: nat, rest: bytes)
    requires SelectorFits(s)
    ensures AddressBytes(s).Ok?
    ensures ReadSelectors(count + 1, SelectorHead(s) + AddressBytes(s).value + rest)
         == Prepend(s, ReadSelectors(count, rest))
  {
    AddressesRead(s, rest);
    hide ReadAddresses, AddressBytes;
    var h, body := SelectorHead(s), AddressBytes(s).value;
    Halves(8 + |body|);
    Halves(s.startPort);
    Halves(s.endPort);
    Cut(h, body, rest);
    assert Read16(h[2], h[3]) == 8 + |body|;
    hide Read16;
  }

  lemma {:induction false} SelectorsRoundTrip(ss: seq<TsSelector>)
    requires forall s | s in ss :: SelectorFits(s)
    ensures SelectorsBytes(ss).Ok? && ReadSelectors(|ss|, SelectorsBytes(ss).value) == Ok(ss)
  {
    if ss != [] {
      SelectorsRoundTrip(ss[1..]);
      assert SelectorFits(ss[0]);
      hide ReadSelectors, AddressBytes, SelectorFits;
      SelectorStep(ss[0], |ss| - 1, SelectorsBytes(ss[1..]).value);
      assert ss == [ss[0]] + ss[1..];
    }
  }

  // ------------------------------------------------------------------ others

  lemma SpiReads(size: u8, spi: u32)
    requires size == 4 || size == 8
    ensures SpiBytes(size, spi).Ok? && |SpiBytes(size, spi).value| == size
    ensures ReadSpi(size, SpiBytes(size, spi).value) == Ok(spi)
  {
    Widths();
    if size == 4 {
      FromBEOfBE(4, spi);
    } else {
      WideSpi(4, 4, spi);
      FromBEOfBE(4, spi);
      ZeroReads(4);
    }
    hide BE, FromBE, Pow256;
  }

  /** The high octets of a small number are zero. */
  lemma {:induction false} WideSpi(high: nat, low: nat, v: nat)
    requires v < Pow256(low)
    ensures BE(high + low, v)[..high] == Zeros(high) && BE(high + low, v)[high..] == BE(low, v)
    decreases low
  {
    if low == 0 {
      ZeroBE(high);
    } else {
      WideSpi(high, low - 1, v / 256);
      assert BE(high + low, v) == BE(high + (low - 1), v / 256) + [v % 256];
    }
  }

  lemma {:induction false} ZeroBE(n: nat)
    ensures BE(n, 0) == Zeros(n)
  {
    if n > 0 {
      ZeroBE(n - 1);
    }
  }

  lemma ZeroReads(n: nat)
    ensures FromBE(Zeros(n)) == 0
  {
    PowPositive(n);
    ZeroBE(n);
    FromBEOfBE(n, 0);
  }

  lemma PowPositive(n: nat)
    ensures 0 < Pow256(n)
  {
  }

  lemma {:induction false} SpisRoundTrip(size: u8, spis: seq<u32>)
    requires size == 4 || size == 8 || spis == []
    ensures var r := SpisBytes(size, spis);
      r.Ok? && |r.value| == |spis| * size && ReadSpis(size, |spis|, r.value) == Ok(spis)
  {
    if spis != [] {
      SpisRoundTrip(size, spis[1..]);
      SpiReads(size, spis[0]);
      hide SpiBytes, ReadSpi;
      var spi, rest := SpiBytes(size, spis[0]).value, SpisBytes(size, spis[1..]).value;
      Split(spi, rest);
      assert spis == [spis[0]] + spis[1..];
      assert |spis| * size == (|spis| - 1) * size + size;
    }
  }

  lemma ConfigStep(a: Attribute, rest: bytes)
    requires AttributeFits(a)
    ensures ReadConfig(W16(a.kind) + W16(|a.value|) + a.value + rest) == Prepend(a, ReadConfig(rest))
  {
    W16Reads(a.kind);
    W16Reads(|a.value|);
    Cut(W16(a.kind) + W16(|a.value|), a.value, rest);
  }

  lemma {:induction false} ConfigRoundTrip(attributes: seq<Attribute>)
    requires forall a | a in attributes :: AttributeFits(a)
    ensures ConfigBytes(attributes).Ok? && ReadConfig(ConfigBytes(attributes).value) == Ok(attributes)
  {
    if attributes != [] {
      ConfigRoundTrip(attributes[1..]);
      assert AttributeFits(attributes[0]);
      hide ReadConfig;
      ConfigStep(attributes[0], ConfigBytes(attributes[1..]).value);
      assert attributes == [attributes[0]] + attributes[1..];
    }
  }

  lemma NotifyRoundTrip(p: Payload)
    requires p.Notify? && |p.spi| <= 255
    ensures Body(p).Ok? && ReadNotify(Body(p).value) == Ok(p)
  {
    W16Reads(p.notifyType);
    var h := [p.protocol, |p.spi|] + W16(p.notifyType);
    hide W16;
    Cut(h, p.spi, p.data);
  }

  lemma ReadDeleteIs(protocol: u8, size: u8, count: u16, tail: bytes)
    requires size == 0 || size == 4 || size == 8
    requires count * size <= |tail|
    ensures ReadDelete([protocol, size] + W16(count) + tail)
         == match ReadSpis(size, count, tail) case Err => Err case Ok(spis) => Ok(Delete(protocol, size, spis))
  {
    W16Reads(count);
    hide W16, ReadSpis, Read16;
    var h := [protocol, size] + W16(count);
    Split(h, tail);
    assert forall i | 0 <= i < 4 :: (h + tail)[i] == h[i];
  }

  lemma DeleteRoundTrip(p: Payload)
    requires p.Delete? && PayloadFits(p)
    ensures Body(p).Ok? && ReadDelete(Body(p).value) == Ok(p)
  {
    hide SpisBytes, ReadSpis, ReadDelete, W16;
    SpisRoundTrip(p.spiSize, p.spis);
    ReadDeleteIs(p.protocol, p.spiSize, |p.spis|, SpisBytes(p.spiSize, p.spis).value);
  }

  lemma ReadTsIs(initiator: bool, n: u8, tail: bytes)
    ensures ReadTs(initiator, [n, 0, 0, 0] + tail)
         == match ReadSelectors(n, tail) case Err => Err case Ok(ss) => Ok(Ts(initiator, ss))
  {
    hide ReadSelectors;
    Split([n, 0, 0, 0], tail);
  }

  lemma TsRoundTrip(p: Payload)
    requires p.Ts? && PayloadFits(p)
    ensures Body(p).Ok? && ReadTs(p.initiator, Body(p).value) == Ok(p)
  {
    hide SelectorsBytes, ReadSelectors, SelectorFits, ReadTs;
    SelectorsRoundTrip(p.selectors);
    ReadTsIs(p.initiator, |p.selectors|, SelectorsBytes(p.selectors).value);
  }

  // ----------------------------------------------------------------- payloads

  lemma PayloadRoundTrip(p: Payload, next: u8)
    requires PayloadFits(p)
    ensures Body(p).Ok? && ReadBody(Kind(p), Body(p).value, next) == Ok(p)
  {
    hide SaBytes, ReadSa, ReadNotify, ReadDelete, ReadTs, ConfigBytes, ReadConfig, SpisBytes, SelectorsBytes;
    match p
    case Sa(proposals) => SaRoundTrip(proposals);
    case Ke(group, data) =>
      W16Reads(group);
      Split(W16(group) + [0, 0], data);
      assert (W16(group) + [0, 0] + data)[..2] == W16(group);
    case Id(_, idType, data) => Split([idType, 0, 0, 0], data);
    case Cert(encoding, data) => Split([encoding], data);
    case CertReq(encoding, data) => Split([encoding], data);
    case Auth(m, data) => Split([m, 0, 0, 0], data);
    case Notify(_, _, _, _) => NotifyRoundTrip(p);
    case Delete(_, _, _) => DeleteRoundTrip(p);
    case Ts(_, _) => TsRoundTrip(p);
    case Config(attributes) => ConfigRoundTrip(attributes);
    case _ =>
  }

  lemma KindIsNotNone(p: Payload)
    requires PayloadFits(p)
    ensures Kind(p) != 0 && Kind(p) != SK
  {
  }

  function ChainHead(next: u8, n: nat): (b: bytes)
    ensures |b| == 4
  {
    [next, 0] + W16(4 + n)
  }

  lemma ChainStep(kind: u8, next: u8, body: bytes, rest: bytes)
    requires kind != 0 && 4 + |body| <= 0xffff
    ensures ReadChain(kind, ChainHead(next, |body|) + body + rest)
         == match ReadBody(kind, body, next)
            case Err => Err
            case Ok(p) => if kind == SK then if rest == [] then Ok([p]) else Err else Prepend(p, ReadChain(next, rest))
  {
    W16Reads(4 + |body|);
    var h := ChainHead(next, |body|);
    assert h[0] == next && h[2] == W16(4 + |body|)[0] && h[3] == W16(4 + |body|)[1];
    hide ReadBody, W16, ChainHead;
    Cut(h, body, rest);
    hide Read16;
  }

  /** A chain of payloads that fit is printed, and read back from its first kind. */
  lemma {:induction false} ChainRoundTrip(ps: seq<Payload>)
    requires ChainFits(ps)
    ensures Chain(ps).Ok? && ReadChain(FirstKind(ps), Chain(ps).value) == Ok(ps)
  {
    hide Body, PayloadFits, ReadBody, ReadChain, Kind;
    if ps == [] {
      EmptyChain();
    } else {
      ChainRoundTrip(ps[1..]);
      assert PayloadFits(ps[0]) && BodyFits(ps[0]);
      KindIsNotNone(ps[0]);
      PayloadRoundTrip(ps[0], FirstKind(ps[1..]));
      ChainStep(Kind(ps[0]), FirstKind(ps[1..]), Body(ps[0]).value, Chain(ps[1..]).value);
      assert ps == [ps[0]] + ps[1..];
    }
  }

  lemma EmptyChain()
    ensures ReadChain(0, []) == Ok([])
  {
  }

  // ----------------------------------------------------------------- messages

  lemma HeaderParts(a: bytes, b: bytes, c: bytes, d: bytes, e: bytes, rest: bytes)
    requires |a| == 8 && |b| == 8 && |c| == 4 && |d| == 4 && |e| == 4
    ensures var m := a + b + c + d + e + rest;
      && m[..8] == a && m[8..16] == b && m[16] == c[0] && m[17] == c[1] && m[18] == c[2] && m[19] == c[3]
      && m[20..24] == d && m[24..28] == e
  {
  }

  lemma HeaderRoundTrip(h: Header, rest: bytes)
    requires h.version / 16 == 2 && HEADER_LEN <= h.length <= HEADER_LEN + |rest|
    ensures ReadHeader(HeaderBytes(h) + rest) == Ok(h)
  {
    hide BE, FromBE, Pow256;
    Widths();
    FromBEOfBE(8, h.initiatorSpi);
    FromBEOfBE(8, h.responderSpi);
    FromBEOfBE(4, h.messageId);
    FromBEOfBE(4, h.length);
    HeaderParts(BE(8, h.initiatorSpi), BE(8, h.responderSpi),
                [h.nextPayload, h.version, ExchangeNumber(h.exchange), h.flags], BE(4, h.messageId), BE(4, h.length), rest);
  }

  /** What decoding reports as the header: the first payload's kind and the real length. */
  function Reported(m: Message, length: u32): (h: Header) {
    m.header.(nextPayload := FirstKind(m.payloads), length := length)
  }

  /** Every message of IKE major version 2 whose payloads fit and whose length fits 32 bits is encoded, and
      decoding it, whatever follows in the buffer, gives its payloads and its header back. */
  lemma MessageRoundTrip(m: Message, trail: bytes)
    requires ChainFits(m.payloads) && m.header.version / 16 == 2
    requires Chain(m.payloads).Ok? ==> HEADER_LEN + |Chain(m.payloads).value| < 0x1_0000_0000
    ensures Encode(m).Ok?
    ensures Decode(Encode(m).value + trail) == Ok(Message(Reported(m, |Encode(m).value|), m.payloads))
  {
    hide ChainFits, Chain, ReadChain, HeaderBytes, ReadHeader, FirstKind;
    ChainRoundTrip(m.payloads);
    var chain := Chain(m.payloads).value;
    var h := Reported(m, HEADER_LEN + |chain|);
    HeaderRoundTrip(h, chain + trail);
    var b := Encode(m).value + trail;
    assert b == HeaderBytes(h) + (chain + trail);
    assert b[HEADER_LEN..h.length] == chain;
  }
}
