/** What one role seals, the other decodes and opens. */
module IkeEnvelope {
  import opened Wire
  import opened IkeCodec
  import opened IkeRoundTrip
  import opened IkeSuite
  import opened IkeSa

  lemma PadFits(e: Encryption, chain: bytes)
    ensures Padded(e, chain) != [] && (IsAead(e) || |Padded(e, chain)| % BLOCK_LEN == 0)
  {
  }

  lemma PaddedParts(chain: bytes, pad: u8)
    ensures var plain := chain + Zeros(pad) + [pad];
      |plain| == |chain| + pad + 1 && plain[|plain| - 1] == pad && plain[..|chain|] == chain
  {
  }

  lemma PaddedOpens(e: Encryption, next: u8, chain: bytes)
    ensures Unpad(next, Padded(e, chain)) == ReadChain(next, chain)
  {
    hide ReadChain, PadLen;
    PaddedParts(chain, PadLen(e, |chain|));
  }

  /** The SK body: IV, ciphertext, ICV. */
  lemma SkParts(iv: bytes, cipher: bytes, icv: bytes)
    ensures var data := iv + cipher + icv;
      && data[..|iv|] == iv && data[|iv|..|iv| + |cipher|] == cipher
      && data[..|iv| + |cipher|] == iv + cipher && data[|iv| + |cipher|..] == icv
  {
  }

  function Icv(c: Primitives, h: Header, next: u8, i: Integrity, keyA: bytes, iv: bytes, cipher: bytes): (icv: bytes) {
    if i.NoIntegrity? then [] else c.mac(i, keyA, Signed(h, next, |iv| + |cipher| + IcvLen(i), iv + cipher))
  }

  lemma IcvSize(c: Primitives, h: Header, next: u8, i: Integrity, keyA: bytes, iv: bytes, cipher: bytes)
    requires Lawful(c)
    ensures |Icv(c, h, next, i, keyA, iv, cipher)| == IcvLen(i)
  {
    hide Signed;
  }

  lemma Encrypts(c: Primitives, e: Encryption, key: bytes, iv: bytes, chain: bytes, aad: bytes)
    requires Lawful(c) && |key| == CipherKeyLen(e) && |iv| == IvLen(e)
    ensures var plain := Padded(e, chain); var cipher := c.encrypt(e, key, iv, plain, aad);
      && cipher.Ok? && c.decrypt(e, key, iv, cipher.value, aad) == Ok(plain)
      && |cipher.value| == CipherLen(e, |plain|)
  {
    PadFits(e, chain);
    hide Padded, PadLen, IvLen, CipherKeyLen;
    assert Fitting(e, key, iv, Padded(e, chain));
    hide Fitting;
  }

  lemma MessageSize(a: bytes, next: u8, n: nat, data: bytes, icv: bytes)
    requires |a| == HEADER_LEN
    ensures |a + ([next, 0] + W16(n)) + data + icv| == HEADER_LEN + 4 + |data| + |icv|
  {
  }

  /** The sealed message is the header followed by one SK payload. */
  lemma SealIs(c: Primitives, h: Header, ps: seq<Payload>, s: Suite, keyE: bytes, keyA: bytes, iv: bytes)
    requires Lawful(c) && Chain(ps).Ok? && |keyE| == CipherKeyLen(s.encryption) && |iv| == IvLen(s.encryption)
    ensures var e, i := s.encryption, s.integrity; var plain := Padded(e, Chain(ps).value);
      var header := SealedHeader(h, HEADER_LEN + 4 + SkLen(e, i, |Chain(ps).value|));
      var cipher := c.encrypt(e, keyE, iv, plain, HeaderBytes(header));
      && cipher.Ok? && c.decrypt(e, keyE, iv, cipher.value, HeaderBytes(header)) == Ok(plain)
      && (var data := iv + cipher.value + Icv(c, header, FirstKind(ps), i, keyA, iv, cipher.value);
          && |data| == SkLen(e, i, |Chain(ps).value|)
          && Seal(c, h, ps, e, i, keyE, keyA, iv)
             == Ok(HeaderBytes(header) + (ChainHead(FirstKind(ps), |data|) + data + [])))
  {
    hide Chain, Padded, PadLen, HeaderBytes, W16, FirstKind, Lawful, IcvLen, IvLen, CipherLen, Fitting, CipherKeyLen,
         SealedHeader;
    var e, i := s.encryption, s.integrity;
    var chain := Chain(ps).value;
    var header := SealedHeader(h, HEADER_LEN + 4 + SkLen(e, i, |chain|));
    Encrypts(c, e, keyE, iv, chain, HeaderBytes(header));
    var cipher := c.encrypt(e, keyE, iv, Padded(e, chain), HeaderBytes(header)).value;
    IcvSize(c, header, FirstKind(ps), i, keyA, iv, cipher);
    var icv := Icv(c, header, FirstKind(ps), i, keyA, iv, cipher);
    var n := |iv| + |cipher| + IcvLen(i);
    MessageSize(HeaderBytes(header), FirstKind(ps), 4 + n, iv + cipher, icv);
    Rebracket(HeaderBytes(header), [FirstKind(ps), 0] + W16(4 + n), iv + cipher, icv);
    SealFrom(c, h, ps, e, i, keyE, keyA, iv, header, cipher);
  }

  lemma SealFrom(c: Primitives, h: Header, ps: seq<Payload>, e: Encryption, i: Integrity, keyE: bytes, keyA: bytes,
                 iv: bytes, header: Header, cipher: bytes)
    requires Chain(ps).Ok? && |Icv(c, header, FirstKind(ps), i, keyA, iv, cipher)| == IcvLen(i)
    requires header == SealedHeader(h, HEADER_LEN + 4 + SkLen(e, i, |Chain(ps).value|))
    requires |iv| == IvLen(e) && |cipher| == CipherLen(e, |Padded(e, Chain(ps).value)|)
    requires c.encrypt(e, keyE, iv, Padded(e, Chain(ps).value), HeaderBytes(header)) == Ok(cipher)
    ensures Seal(c, h, ps, e, i, keyE, keyA, iv)
         == Ok(Signed(header, FirstKind(ps), |iv| + |cipher| + IcvLen(i), iv + cipher)
               + Icv(c, header, FirstKind(ps), i, keyA, iv, cipher))
  {
    hide Chain, Padded, PadLen, HeaderBytes, FirstKind, IvLen, CipherLen, SealedHeader;
    var signed := Signed(header, FirstKind(ps), |iv| + |cipher| + IcvLen(i), iv + cipher);
    assert |signed| == HEADER_LEN + 4 + |iv| + |cipher|;
    assert signed + [] == signed;
    hide Signed;
  }

  lemma Rebracket(a: bytes, b: bytes, d: bytes, icv: bytes)
    ensures a + b + d + icv == a + (b + (d + icv) + []) && a + b + d == a + (b + (d + []) + [])
  {
  }

  /** A message with one SK payload decodes to that payload. */
  lemma SkDecodes(h: Header, next: u8, data: bytes, trail: bytes)
    requires h.version / 16 == 2 && h.nextPayload == SK && 4 + |data| <= 0xffff && h.length == HEADER_LEN + 4 + |data|
    ensures Decode(HeaderBytes(h) + (ChainHead(next, |data|) + data + []) + trail) == Ok(Message(h, [Encrypted(next, data)]))
  {
    hide ReadHeader, HeaderBytes, ChainHead;
    var chain := ChainHead(next, |data|) + data + [];
    ChainStep(SK, next, data, []);
    HeaderRoundTrip(h, chain + trail);
    hide ReadChain;
    var b := HeaderBytes(h) + chain + trail;
    assert b == HeaderBytes(h) + (chain + trail);
    assert b[HEADER_LEN..h.length] == chain;
  }

  lemma Opens(c: Primitives, h: Header, ps: seq<Payload>, e: Encryption, i: Integrity, keyE: bytes, keyA: bytes,
              iv: bytes, cipher: bytes)
    requires ChainFits(ps) && Lawful(c) && |iv| == IvLen(e)
    requires Chain(ps).Ok? && c.decrypt(e, keyE, iv, cipher, HeaderBytes(h)) == Ok(Padded(e, Chain(ps).value))
    ensures var data := iv + cipher + Icv(c, h, FirstKind(ps), i, keyA, iv, cipher);
      Open(c, h, Encrypted(FirstKind(ps), data), e, i, keyE, keyA) == Ok(ps)
  {
    hide Chain, ChainFits, Padded, HeaderBytes, Signed, FirstKind, Unpad, ReadChain;
    ChainRoundTrip(ps);
    PaddedOpens(e, FirstKind(ps), Chain(ps).value);
    var icv := Icv(c, h, FirstKind(ps), i, keyA, iv, cipher);
    IcvSize(c, h, FirstKind(ps), i, keyA, iv, cipher);
    hide Lawful;
    SkParts(iv, cipher, icv);
  }

  /** Endpoints with keys from the same secrets: whatever chain of payloads one role seals, for every cipher
      and integrity algorithm, any padding and the empty chain included, the other role decodes, whatever
      follows in the buffer, and opens to exactly those payloads. The SK payload must fit its length field. */
  lemma TwoRoleEnvelope(
    c: Primitives, x: Secrets, s: Suite, mine: Keys, theirs: Keys, r: IkeRole, h: Header, ps: seq<Payload>,
    iv: bytes, trail: bytes)
    requires Lawful(c) && CutFrom(s, mine, Material(c, s, x)) && CutFrom(s, theirs, Material(c, s, x))
    requires h.version / 16 == 2 && |iv| == IvLen(s.encryption) && ChainFits(ps)
    requires Chain(ps).Ok? ==> 4 + SkLen(s.encryption, s.integrity, |Chain(ps).value|) <= 0xffff
    ensures var sealed := Seal(c, h, ps, s.encryption, s.integrity, OutboundEncryption(mine, r), OutboundIntegrity(mine, r), iv);
      && sealed.Ok?
      && (var got := Decode(sealed.value + trail);
          && got.Ok? && got.value.header == SealedHeader(h, |sealed.value|) && |got.value.payloads| == 1
          && Open(c, got.value.header, got.value.payloads[0], s.encryption, s.integrity,
                  InboundEncryption(theirs, Opposite(r)), InboundIntegrity(theirs, Opposite(r))) == Ok(ps))
  {
    hide CutFrom, Material, Lawful, ChainFits, Chain, Seal, Open, Decode, Icv, HeaderBytes, ChainHead, SkLen, Padded,
         FirstKind, CipherKeyLen, IvLen;
    RolesMatch(c, s, x, mine, theirs, r);
    ChainRoundTrip(ps);
    var e, i := s.encryption, s.integrity;
    var keyE, keyA := OutboundEncryption(mine, r), OutboundIntegrity(mine, r);
    SealIs(c, h, ps, s, keyE, keyA, iv);
    var header := SealedHeader(h, HEADER_LEN + 4 + SkLen(e, i, |Chain(ps).value|));
    var cipher := c.encrypt(e, keyE, iv, Padded(e, Chain(ps).value), HeaderBytes(header)).value;
    var data := iv + cipher + Icv(c, header, FirstKind(ps), i, keyA, iv, cipher);
    SkDecodes(header, FirstKind(ps), data, trail);
    Opens(c, header, ps, e, i, keyE, keyA, iv, cipher);
  }
}
