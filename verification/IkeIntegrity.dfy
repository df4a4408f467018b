/** What an accepted IKE message authenticates, stated on the octets received. */
module IkeIntegrity {
  import opened Wire
  import opened IkeCodec
  import opened IkeRoundTrip
  import opened IkeSuite
  import opened IkeSa
  import opened IkeEnvelope

  lemma Digit(v: nat, d: u8)
    ensures (256 * v + d) / 256 == v && (256 * v + d) % 256 == d
  {
  }

  lemma {:induction false} BEOfFromBE(b: bytes)
    ensures BE(|b|, FromBE(b)) == b
  {
    if b != [] {
      var front, last := b[..|b| - 1], b[|b| - 1];
      BEOfFromBE(front);
      Digit(FromBE(front), last);
      assert FromBE(b) == 256 * FromBE(front) + last;
      assert b == front + [last];
      hide FromBE;
    }
  }

  lemma HeaderCut(b: bytes)
    requires |b| >= HEADER_LEN
    ensures b[..HEADER_LEN] == b[..8] + b[8..16] + [b[16], b[17], b[18], b[19]] + b[20..24] + b[24..28]
  {
  }

  /** A header that reads encodes back to the octets it was read from. */
  lemma HeaderKept(b: bytes)
    requires ReadHeader(b).Ok?
    ensures |b| >= HEADER_LEN && HeaderBytes(ReadHeader(b).value) == b[..HEADER_LEN]
  {
    hide BE, FromBE;
    BEOfFromBE(b[..8]);
    BEOfFromBE(b[8..16]);
    BEOfFromBE(b[20..24]);
    BEOfFromBE(b[24..28]);
    HeaderCut(b);
  }

  /** A header reads exactly when it is whole, of major version 2 and of an exchange type that is known, and its length
      covers it and is there. */
  lemma HeaderExact(b: bytes)
    ensures ReadHeader(b).Ok? <==>
      && |b| >= 28 && 0x20 <= b[17] < 0x30 && 34 <= b[18] <= 37 && 28 <= FromBE(b[24..28]) <= |b|
    ensures ReadHeader(b).Ok? ==>
      var h := ReadHeader(b).value;
      && HeaderBytes(h) == b[..28] && h.length == FromBE(b[24..28]) && h.nextPayload == b[16] && h.flags == b[19]
  {
    if ReadHeader(b).Ok? {
      HeaderKept(b);
    }
    hide HeaderBytes, FromBE;
  }

  /** A message of one SK payload: its generic header and its body. */
  lemma SkCut(b: bytes)
    requires Decode(b).Ok? && |Decode(b).value.payloads| == 1 && Decode(b).value.payloads[0].Encrypted?
    ensures var m := Decode(b).value; var n := m.header.length;
      && HEADER_LEN + 4 <= n <= |b|
      && m.payloads[0].next == b[HEADER_LEN] && m.payloads[0].data == b[HEADER_LEN + 4..n]
      && Read16(b[HEADER_LEN + 2], b[HEADER_LEN + 3]) == n - HEADER_LEN
      && HeaderBytes(m.header) == b[..HEADER_LEN]
  {
    hide HeaderBytes, ReadHeader, ReadBody;
    HeaderKept(b);
    var h := ReadHeader(b).value;
    SkCutChain(h.nextPayload, b[HEADER_LEN..h.length]);
    hide ReadChain;
  }

  lemma SkCutChain(kind: u8, b: bytes)
    requires ReadChain(kind, b).Ok? && |ReadChain(kind, b).value| == 1 && ReadChain(kind, b).value[0].Encrypted?
    ensures |b| >= 4 && Read16(b[2], b[3]) == |b|
    ensures ReadChain(kind, b).value[0] == Encrypted(b[0], b[4..])
  {
    var n := Read16(b[2], b[3]);
    BodyKind(kind, b[4..n], b[0]);
    hide ReadBody;
    assert b[4..|b|] == b[4..];
  }

  lemma BodyKind(kind: u8, b: bytes, next: u8)
    requires ReadBody(kind, b, next).Ok? && ReadBody(kind, b, next).value.Encrypted?
    ensures kind == SK && ReadBody(kind, b, next).value == Encrypted(next, b)
  {
    hide ReadSa, ReadConfig;
  }

  lemma SignedOctets(b: bytes, h: Header, n: nat, k: nat)
    requires HEADER_LEN + 4 + k <= n <= |b| && HeaderBytes(h) == b[..HEADER_LEN]
    requires Read16(b[HEADER_LEN + 2], b[HEADER_LEN + 3]) == n - HEADER_LEN
    ensures Signed(h, b[HEADER_LEN], n - HEADER_LEN - 4, b[HEADER_LEN + 4..n][..n - HEADER_LEN - 4 - k])
         == b[..n - k][HEADER_LEN + 1 := 0]
  {
    hide HeaderBytes;
    var w := W16(n - HEADER_LEN);
    assert w[0] == b[HEADER_LEN + 2] && w[1] == b[HEADER_LEN + 3];
  }

  /** With an integrity algorithm, a received message of one SK payload opens only if its last octets are the integrity
      code, under the receiver's key, of all the octets before them, the reserved octet of the SK payload read as zero. */
  lemma AcceptedIsAuthentic(c: Primitives, b: bytes, e: Encryption, i: Integrity, keyE: bytes, keyA: bytes)
    requires Decode(b).Ok? && |Decode(b).value.payloads| == 1 && !i.NoIntegrity?
    requires var m := Decode(b).value; Open(c, m.header, m.payloads[0], e, i, keyE, keyA).Ok?
    ensures var n := Decode(b).value.header.length;
      && HEADER_LEN + 4 + IvLen(e) + IcvLen(i) <= n <= |b|
      && b[n - IcvLen(i)..n] == c.mac(i, keyA, b[..n - IcvLen(i)][HEADER_LEN + 1 := 0])
  {
    hide Decode, HeaderBytes, Signed, Unpad;
    var m := Decode(b).value;
    SkCut(b);
    var n, k := m.header.length, IcvLen(i);
    SignedOctets(b, m.header, n, k);
    var data := m.payloads[0].data;
    assert data[|data| - k..] == b[n - k..n];
  }

  /** The same on the pieces: the ICV that ends the body of the SK payload is the code of the header octets, the
      generic header and the rest of the body. */
  lemma OpenNeedsIcv(c: Primitives, h: Header, next: u8, data: bytes, e: Encryption, i: Integrity, keyE: bytes, keyA: bytes)
    requires !i.NoIntegrity? && Open(c, h, Encrypted(next, data), e, i, keyE, keyA).Ok?
    ensures |data| >= IcvLen(i)
    ensures var split := |data| - IcvLen(i);
      data[split..] == c.mac(i, keyA, HeaderBytes(h) + [next, 0] + W16(4 + |data|) + data[..split])
  {
    hide HeaderBytes, W16, Unpad;
    var split := |data| - IcvLen(i);
    assert HeaderBytes(h) + ([next, 0] + W16(4 + |data|)) + data[..split]
        == HeaderBytes(h) + [next, 0] + W16(4 + |data|) + data[..split];
  }

  /** Octets that differ from `a + icv` only after `a`. */
  lemma OnlyTail(a: bytes, iv: bytes, cipher: bytes, icv: bytes, altered: bytes)
    requires |altered| == |a + (iv + cipher + icv + [])| && |altered| >= |icv|
    requires altered[..|altered| - |icv|] == (a + (iv + cipher + icv + []))[..|altered| - |icv|]
    ensures altered == a + (iv + cipher + altered[|altered| - |icv|..] + [])
    ensures altered == a + (iv + cipher + icv + []) <==> altered[|altered| - |icv|..] == icv
  {
    var k := |altered| - |icv|;
    var whole := a + (iv + cipher + icv + []);
    assert whole[..k] == a + (iv + cipher);
    assert whole[k..] == icv;
    assert altered == altered[..k] + altered[k..];
  }

  lemma TailRefused(c: Primitives, h: Header, next: u8, e: Encryption, i: Integrity, keyE: bytes, keyA: bytes,
                    iv: bytes, cipher: bytes, tail: bytes)
    requires |tail| == IcvLen(i) && !i.NoIntegrity? && tail != Icv(c, h, next, i, keyA, iv, cipher)
    ensures Open(c, h, Encrypted(next, iv + cipher + tail), e, i, keyE, keyA).Err?
  {
    hide Signed, Unpad, IvLen;
    SkParts(iv, cipher, tail);
  }

  /** Of all messages that agree with a sealed one up to its integrity code, the other role opens exactly the sealed one
      itself; every other still decodes and is refused. */
  lemma AlteredIcvRefused(
    c: Primitives, x: Secrets, s: Suite, mine: Keys, theirs: Keys, r: IkeRole, h: Header, ps: seq<Payload>,
    iv: bytes, altered: bytes, trail: bytes)
    requires Lawful(c) && CutFrom(s, mine, Material(c, s, x)) && CutFrom(s, theirs, Material(c, s, x))
    requires h.version / 16 == 2 && |iv| == IvLen(s.encryption) && ChainFits(ps) && !s.integrity.NoIntegrity?
    requires Chain(ps).Ok? ==> 4 + SkLen(s.encryption, s.integrity, |Chain(ps).value|) <= 0xffff
    requires var sealed := Seal(c, h, ps, s.encryption, s.integrity, OutboundEncryption(mine, r), OutboundIntegrity(mine, r), iv);
      sealed.Ok? && |altered| == |sealed.value| >= IcvLen(s.integrity)
      && altered[..|altered| - IcvLen(s.integrity)] == sealed.value[..|altered| - IcvLen(s.integrity)]
    ensures var sealed := Seal(c, h, ps, s.encryption, s.integrity, OutboundEncryption(mine, r), OutboundIntegrity(mine, r), iv);
      var got := Decode(altered + trail);
      && got.Ok? && |got.value.payloads| == 1
      && (var read := Open(c, got.value.header, got.value.payloads[0], s.encryption, s.integrity,
                           InboundEncryption(theirs, Opposite(r)), InboundIntegrity(theirs, Opposite(r)));
          read == if altered == sealed.value then Ok(ps) else Err)
  {
    hide CutFrom, Material, Lawful, ChainFits, Chain, Seal, Open, Decode, Icv, HeaderBytes, ChainHead, SkLen, Padded,
         FirstKind, CipherKeyLen, IvLen, IcvLen;
    RolesMatch(c, s, x, mine, theirs, r);
    ChainRoundTrip(ps);
    var e, i := s.encryption, s.integrity;
    var keyE, keyA := OutboundEncryption(mine, r), OutboundIntegrity(mine, r);
    SealIs(c, h, ps, s, keyE, keyA, iv);
    var header := SealedHeader(h, HEADER_LEN + 4 + SkLen(e, i, |Chain(ps).value|));
    var cipher := c.encrypt(e, keyE, iv, Padded(e, Chain(ps).value), HeaderBytes(header)).value;
    var next := FirstKind(ps);
    var icv := Icv(c, header, next, i, keyA, iv, cipher);
    var tail := altered[|altered| - IcvLen(i)..];
    var data := iv + cipher + tail;
    IcvSize(c, header, next, i, keyA, iv, cipher);
    var front := HeaderBytes(header) + ChainHead(next, |data|);
    Refront(HeaderBytes(header), ChainHead(next, |data|), iv + cipher + icv);
    Refront(HeaderBytes(header), ChainHead(next, |data|), data);
    OnlyTail(front, iv, cipher, icv, altered);
    SkDecodes(header, next, data, trail);
    if altered == Seal(c, h, ps, e, i, keyE, keyA, iv).value {
      TwoRoleEnvelope(c, x, s, mine, theirs, r, h, ps, iv, trail);
    } else {
      TailRefused(c, header, next, e, i, keyE, keyA, iv, cipher, tail);
    }
  }

  lemma Refront(a: bytes, b: bytes, d: bytes)
    ensures a + (b + d + []) == a + b + (d + [])
  {
  }
}
