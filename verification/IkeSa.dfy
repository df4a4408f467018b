/** IKE SA keys and the encrypted envelope (src/ipsec/ikev2/sa.rs and prf+ in crypto.rs; sections 2.13,
    2.14, 2.17 and 3.14 of RFC 7296). */
module IkeSa {
  import opened Wire
  import opened IkeCodec
  import opened IkeSuite
  import IkeCodecLoops

  /** The primitives, as functions. */
  datatype Primitives = Primitives(
    prf: (Prf, bytes, bytes) -> bytes,
    mac: (Integrity, bytes, bytes) -> bytes,
    encrypt: (Encryption, bytes, bytes, bytes, bytes) -> Result<bytes>,
    decrypt: (Encryption, bytes, bytes, bytes, bytes) -> Result<bytes>)

  /** The sizes a cipher accepts: its key and IV, and whole blocks unless it is an AEAD. */
  predicate Fitting(e: Encryption, key: bytes, iv: bytes, plain: bytes) {
    && |key| == CipherKeyLen(e) && |iv| == IvLen(e) && plain != []
    && (IsAead(e) || |plain| % BLOCK_LEN == 0)
  }

  function CipherLen(e: Encryption, n: nat): (m: nat) { if IsAead(e) then n + 16 else n }

  /** Decryption undoes encryption under the same key, IV and associated data; sizes are the algorithms'. */
  ghost predicate Lawful(c: Primitives) {
    && (forall a, key, data :: |c.prf(a, key, data)| == PrfLen(a))
    && (forall a, key, data :: |c.mac(a, key, data)| == IcvLen(a))
    && (forall e, key, iv, plain, aad :: Fitting(e, key, iv, plain) ==>
          && c.encrypt(e, key, iv, plain, aad).Ok?
          && |c.encrypt(e, key, iv, plain, aad).value| == CipherLen(e, |plain|)
          && c.decrypt(e, key, iv, c.encrypt(e, key, iv, plain, aad).value, aad) == Ok(plain))
  }

  // -------------------------------------------------------------------- prf+

  /** T(n) of prf+, with the counter octet as the source wraps it. */
  function Block(c: Primitives, a: Prf, key: bytes, seed: bytes, n: nat): (b: bytes) {
    if n == 0 then [] else c.prf(a, key, Block(c, a, key, seed, n - 1) + seed + [n % 256])
  }

  /** T(1) | T(2) | ... | T(n). */
  function Blocks(c: Primitives, a: Prf, key: bytes, seed: bytes, n: nat): (b: bytes) {
    if n == 0 then [] else Blocks(c, a, key, seed, n - 1) + Block(c, a, key, seed, n)
  }

  lemma {:induction false} BlocksLen(c: Primitives, a: Prf, key: bytes, seed: bytes, n: nat)
    requires Lawful(c)
    ensures |Blocks(c, a, key, seed, n)| == n * PrfLen(a) && n <= n * PrfLen(a)
  {
    if n > 0 {
      BlocksLen(c, a, key, seed, n - 1);
    }
  }

  lemma {:induction false} BlocksPrefix(c: Primitives, a: Prf, key: bytes, seed: bytes, n: nat, m: nat)
    requires n <= m
    ensures Blocks(c, a, key, seed, n) <= Blocks(c, a, key, seed, m)
  {
    if n < m {
      BlocksPrefix(c, a, key, seed, n, m - 1);
    }
  }

  /** The first `len` octets of the stream T(1) | T(2) | ... */
  ghost function PrfPlus(c: Primitives, a: Prf, key: bytes, seed: bytes, len: nat): (b: bytes)
    requires Lawful(c)
    ensures |b| == len
  {
    BlocksLen(c, a, key, seed, len);
    Blocks(c, a, key, seed, len)[..len]
  }

  lemma PrefixTake(a: bytes, b: bytes, n: nat)
    requires a <= b && n <= |a|
    ensures a[..n] == b[..n]
  {
  }

  method ComputePrfPlus(c: Primitives, a: Prf, key: bytes, seed: bytes, len: nat) returns (output: bytes)
    requires Lawful(c)
    ensures output == PrfPlus(c, a, key, seed, len)
  {
    hide Blocks, Block, Lawful;
    output := [];
    var previous: bytes := [];
    var counter: u8 := 1;
    ghost var n: nat := 0;
    BlockStart(c, a, key, seed);
    while |output| < len
      invariant |output| <= len && counter == (n + 1) % 256 && previous == Block(c, a, key, seed, n)
      invariant |Blocks(c, a, key, seed, n)| == n * PrfLen(a)
      invariant n <= |output| <= n * PrfLen(a) && output == Blocks(c, a, key, seed, n)[..|output|]
      invariant |output| < len ==> |output| == n * PrfLen(a)
      decreases len - |output|
    {
      BlockStep(c, a, key, seed, n);
      BlocksLen(c, a, key, seed, n + 1);
      BlocksLen(c, a, key, seed, n);
      var block := c.prf(a, key, previous + seed + [counter]);
      var take := if len - |output| < |block| then len - |output| else |block|;
      Extend(output, block, take);
      output := output + block[..take];
      previous := block;
      counter := (counter + 1) % 256;
      n := n + 1;
    }
    Enough(c, a, key, seed, n, len);
  }

  lemma BlockStart(c: Primitives, a: Prf, key: bytes, seed: bytes)
    ensures Block(c, a, key, seed, 0) == [] && Blocks(c, a, key, seed, 0) == []
  {
  }

  lemma BlockStep(c: Primitives, a: Prf, key: bytes, seed: bytes, n: nat)
    ensures Block(c, a, key, seed, n + 1) == c.prf(a, key, Block(c, a, key, seed, n) + seed + [(n + 1) % 256])
    ensures Blocks(c, a, key, seed, n + 1) == Blocks(c, a, key, seed, n) + Block(c, a, key, seed, n + 1)
    ensures Lawful(c) ==> |Block(c, a, key, seed, n + 1)| == PrfLen(a) > 0
  {
  }

  lemma Extend(output: bytes, block: bytes, take: nat)
    requires take <= |block|
    ensures (output + block)[..|output| + take] == output + block[..take]
  {
  }

  lemma Enough(c: Primitives, a: Prf, key: bytes, seed: bytes, n: nat, len: nat)
    requires Lawful(c) && n <= len <= n * PrfLen(a)
    ensures len <= |Blocks(c, a, key, seed, n)| && Blocks(c, a, key, seed, n)[..len] == PrfPlus(c, a, key, seed, len)
  {
    hide Blocks;
    BlocksLen(c, a, key, seed, n);
    BlocksLen(c, a, key, seed, len);
    BlocksPrefix(c, a, key, seed, n, len);
    PrefixTake(Blocks(c, a, key, seed, n), Blocks(c, a, key, seed, len), len);
  }

  // -------------------------------------------------------------------- keys

  datatype IkeRole = Initiator | Responder

  function Opposite(r: IkeRole): (o: IkeRole) { if r.Initiator? then Responder else Initiator }

  datatype Keys = Keys(d: bytes, ai: bytes, ar: bytes, ei: bytes, er: bytes, pi: bytes, pr: bytes)

  datatype Suite = Suite(prf: Prf, encryption: Encryption, integrity: Integrity)

  /** What both ends of an exchange know before they derive keys. */
  datatype Secrets = Secrets(shared: bytes, nonceI: bytes, nonceR: bytes, spiI: u64, spiR: u64)

  function KeySizes(s: Suite): (ns: seq<nat>)
    ensures |ns| == 7
  {
    var p, a, e := PrfLen(s.prf), IntegrityKeyLen(s.integrity), CipherKeyLen(s.encryption);
    [p, a, a, e, e, p, p]
  }

  function Total(s: Suite): (n: nat) {
    PrfLen(s.prf) * 3 + CipherKeyLen(s.encryption) * 2 + IntegrityKeyLen(s.integrity) * 2
  }

  ghost function Material(c: Primitives, s: Suite, x: Secrets): (m: bytes)
    requires Lawful(c)
    ensures |m| == Total(s)
  {
    PrfPlus(c, s.prf, c.prf(s.prf, x.nonceI + x.nonceR, x.shared),
            x.nonceI + x.nonceR + BE(8, x.spiI) + BE(8, x.spiR), Total(s))
  }

  /** The seven keys follow one another in the key material and have the sizes the suite asks for. */
  ghost predicate CutFrom(s: Suite, k: Keys, material: bytes) {
    && k.d + k.ai + k.ar + k.ei + k.er + k.pi + k.pr == material
    && [|k.d|, |k.ai|, |k.ar|, |k.ei|, |k.er|, |k.pi|, |k.pr|] == KeySizes(s)
  }

  lemma SevenParts(a: bytes, b: bytes, c: bytes, d: bytes, e: bytes, f: bytes, g: bytes)
    ensures var m := a + b + c + d + e + f + g;
      var n2 := |a| + |b|; var n3 := n2 + |c|; var n4 := n3 + |d|; var n5 := n4 + |e|; var n6 := n5 + |f|;
      && m[..|a|] == a && m[|a|..n2] == b && m[n2..n3] == c && m[n3..n4] == d && m[n4..n5] == e
      && m[n5..n6] == f && m[n6..] == g
  {
  }

  /** The key material determines the keys. */
  lemma CutIsUnique(s: Suite, k: Keys, l: Keys, material: bytes)
    requires CutFrom(s, k, material) && CutFrom(s, l, material)
    ensures k == l
  {
    SevenParts(k.d, k.ai, k.ar, k.ei, k.er, k.pi, k.pr);
    SevenParts(l.d, l.ai, l.ar, l.ei, l.er, l.pi, l.pr);
    SameSizes(s, k, l);
  }

  lemma SameSizes(s: Suite, k: Keys, l: Keys)
    requires [|k.d|, |k.ai|, |k.ar|, |k.ei|, |k.er|, |k.pi|, |k.pr|] == KeySizes(s)
    requires [|l.d|, |l.ai|, |l.ar|, |l.ei|, |l.er|, |l.pi|, |l.pr|] == KeySizes(s)
    ensures |k.d| == |l.d| && |k.ai| == |l.ai| && |k.ar| == |l.ar| && |k.ei| == |l.ei| && |k.er| == |l.er|
    ensures |k.pi| == |l.pi| && |k.pr| == |l.pr|
  {
  }

  lemma Grow(m: bytes, i: nat, j: nat)
    requires i <= j <= |m|
    ensures m[..i] + m[i..j] == m[..j]
  {
  }

  /** Cuts the next `n` octets off the material. */
  method Take(m: bytes, offset: nat, n: nat) returns (value: bytes, next: nat)
    requires offset + n <= |m|
    ensures |value| == n && next == offset + n && m[..offset] + value == m[..next]
  {
    Grow(m, offset, offset + n);
    value, next := m[offset..offset + n], offset + n;
  }

  /** `IkeKeys::derive`. */
  method Derive(c: Primitives, s: Suite, x: Secrets) returns (k: Keys)
    requires Lawful(c)
    ensures CutFrom(s, k, Material(c, s, x))
  {
    hide PrfPlus, Lawful, BE, PrfLen, IntegrityKeyLen, CipherKeyLen;
    var seed := x.nonceI + x.nonceR + BE(8, x.spiI) + BE(8, x.spiR);
    var skeyseed := c.prf(s.prf, x.nonceI + x.nonceR, x.shared);
    var m := ComputePrfPlus(c, s.prf, skeyseed, seed, Total(s));
    var p, a, e := PrfLen(s.prf), IntegrityKeyLen(s.integrity), CipherKeyLen(s.encryption);
    var offset := 0;
    var d, ai, ar, ei, er, pi, pr: bytes;
    assert m[..0] == [];
    d, offset := Take(m, offset, p);
    assert [] + d == d;
    ai, offset := Take(m, offset, a);
    ar, offset := Take(m, offset, a);
    ei, offset := Take(m, offset, e);
    er, offset := Take(m, offset, e);
    pi, offset := Take(m, offset, p);
    pr, offset := Take(m, offset, p);
    assert m[..offset] == m;
    k := Keys(d, ai, ar, ei, er, pi, pr);
  }

  function OutboundEncryption(k: Keys, r: IkeRole): (b: bytes) { if r.Initiator? then k.ei else k.er }

  function InboundEncryption(k: Keys, r: IkeRole): (b: bytes) { if r.Initiator? then k.er else k.ei }

  function OutboundIntegrity(k: Keys, r: IkeRole): (b: bytes) { if r.Initiator? then k.ai else k.ar }

  function InboundIntegrity(k: Keys, r: IkeRole): (b: bytes) { if r.Initiator? then k.ar else k.ai }

  /** Endpoints that derive from the same secrets hold the same keys, and what one sends under the other
      receives under. */
  lemma RolesMatch(c: Primitives, s: Suite, x: Secrets, mine: Keys, theirs: Keys, r: IkeRole)
    requires Lawful(c) && CutFrom(s, mine, Material(c, s, x)) && CutFrom(s, theirs, Material(c, s, x))
    ensures OutboundEncryption(mine, r) == InboundEncryption(theirs, Opposite(r))
    ensures OutboundIntegrity(mine, r) == InboundIntegrity(theirs, Opposite(r))
    ensures |OutboundEncryption(mine, r)| == CipherKeyLen(s.encryption)
  {
    hide Material, Lawful, CutFrom;
    CutIsUnique(s, mine, theirs, Material(c, s, x));
    CutSizes(s, mine, Material(c, s, x));
  }

  lemma CutSizes(s: Suite, k: Keys, material: bytes)
    requires CutFrom(s, k, material)
    ensures |k.ei| == |k.er| == CipherKeyLen(s.encryption)
  {
    var ns := [|k.d|, |k.ai|, |k.ar|, |k.ei|, |k.er|, |k.pi|, |k.pr|];
    assert ns[3] == KeySizes(s)[3] && ns[4] == KeySizes(s)[4];
  }

  // -------------------------------------------------------------- child keys

  datatype ChildKeys = ChildKeys(outbound: bytes, inbound: bytes, outboundIntegrity: Option<bytes>, inboundIntegrity: Option<bytes>)

  function ChildTotal(e: Encryption, i: Integrity): (n: nat) { CipherKeyLen(e) * 2 + IntegrityKeyLen(i) * 2 }

  ghost function ChildMaterial(
    c: Primitives, s: Suite, skD: bytes, dh: Option<bytes>, nonceI: bytes, nonceR: bytes): (m: bytes)
    requires Lawful(c)
    ensures |m| == ChildTotal(s.encryption, s.integrity)
  {
    PrfPlus(c, s.prf, skD, (if dh.Some? then dh.value else []) + nonceI + nonceR, ChildTotal(s.encryption, s.integrity))
  }

  function CutChild(e: Encryption, i: Integrity, m: bytes, r: IkeRole): (k: ChildKeys)
    requires |m| == ChildTotal(e, i)
  {
    var n, a := CipherKeyLen(e), IntegrityKeyLen(i);
    var ei, er, ai, ar := m[..n], m[n..n * 2], m[n * 2..n * 2 + a], m[n * 2 + a..n * 2 + a * 2];
    var (out, in_, outA, inA) := if r.Initiator? then (ei, er, ai, ar) else (er, ei, ar, ai);
    if i.NoIntegrity? then ChildKeys(out, in_, None, None) else ChildKeys(out, in_, Some(outA), Some(inA))
  }

  /** `derive_child_keys`. */
  method DeriveChild(
    c: Primitives, s: Suite, skD: bytes, dh: Option<bytes>, nonceI: bytes, nonceR: bytes, r: IkeRole)
    returns (k: ChildKeys)
    requires Lawful(c)
    ensures k == CutChild(s.encryption, s.integrity, ChildMaterial(c, s, skD, dh, nonceI, nonceR), r)
  {
    var seed: bytes := [];
    if dh.Some? {
      seed := seed + dh.value;
    }
    seed := seed + nonceI;
    seed := seed + nonceR;
    assert seed == (if dh.Some? then dh.value else []) + nonceI + nonceR;
    var m := ComputePrfPlus(c, s.prf, skD, seed, ChildTotal(s.encryption, s.integrity));
    k := CutChild(s.encryption, s.integrity, m, r);
  }

  lemma Quarter(m: bytes, n: nat, a: nat)
    requires |m| == n * 2 + a * 2
    ensures m == m[..n] + m[n..n * 2] + (m[n * 2..n * 2 + a] + m[n * 2 + a..n * 2 + a * 2])
  {
  }

  /** The two roles cut mirrored Child SA keys, which together use up the material, no octet twice. */
  lemma ChildKeysMirror(e: Encryption, i: Integrity, m: bytes, r: IkeRole)
    requires |m| == ChildTotal(e, i)
    ensures var mine, theirs := CutChild(e, i, m, r), CutChild(e, i, m, Opposite(r));
      && mine.outbound == theirs.inbound && mine.inbound == theirs.outbound
      && mine.outboundIntegrity == theirs.inboundIntegrity && mine.inboundIntegrity == theirs.outboundIntegrity
      && (mine.outboundIntegrity.None? <==> i.NoIntegrity?)
    ensures var k := CutChild(e, i, m, Initiator);
      m == k.outbound + k.inbound
           + (if i.NoIntegrity? then [] else k.outboundIntegrity.value + k.inboundIntegrity.value)
  {
    var n, a := CipherKeyLen(e), IntegrityKeyLen(i);
    assert |m| == n * 2 + a * 2;
    assert i.NoIntegrity? ==> a == 0;
    hide CipherKeyLen, IntegrityKeyLen;
    Grow(m, n, n * 2);
    Quarter(m, n, a);
  }

  /** Endpoints whose IKE keys come from the same secrets derive mirrored Child SA keys, for any child suite, with
      or without a DH secret, whoever started the exchange: both ends pass the role they have in the IKE SA, in
      CREATE_CHILD_SA too, and the nonces in the order of the exchange. */
  lemma ChildKeysAgree(
    c: Primitives, s: Suite, x: Secrets, mine: Keys, theirs: Keys, child: Suite, dh: Option<bytes>,
    nonceI: bytes, nonceR: bytes, r: IkeRole)
    requires Lawful(c) && CutFrom(s, mine, Material(c, s, x)) && CutFrom(s, theirs, Material(c, s, x))
    ensures var e, i := child.encryption, child.integrity;
      var k := CutChild(e, i, ChildMaterial(c, child, mine.d, dh, nonceI, nonceR), r);
      var l := CutChild(e, i, ChildMaterial(c, child, theirs.d, dh, nonceI, nonceR), Opposite(r));
      && k.outbound == l.inbound && k.inbound == l.outbound
      && k.outboundIntegrity == l.inboundIntegrity && k.inboundIntegrity == l.outboundIntegrity
  {
    hide Material, ChildMaterial, Lawful, CutFrom, CutChild;
    CutIsUnique(s, mine, theirs, Material(c, s, x));
    ChildKeysMirror(child.encryption, child.integrity, ChildMaterial(c, child, mine.d, dh, nonceI, nonceR), r);
  }

  // ---------------------------------------------------------------- envelope

  function PadLen(e: Encryption, n: nat): (p: u8) {
    if IsAead(e) then 0 else (BLOCK_LEN - (n + 1) % BLOCK_LEN) % BLOCK_LEN
  }

  function Padded(e: Encryption, chain: bytes): (b: bytes)
    ensures |b| == |chain| + PadLen(e, |chain|) + 1
  {
    chain + Zeros(PadLen(e, |chain|)) + [PadLen(e, |chain|)]
  }

  /** Length of the body of the SK payload. */
  function SkLen(e: Encryption, i: Integrity, n: nat): (m: nat) {
    IvLen(e) + CipherLen(e, n + PadLen(e, n) + 1) + IcvLen(i)
  }

  function SealedHeader(h: Header, total: nat): (r: Header) {
    h.(nextPayload := SK, length := total % 0x1_0000_0000)
  }

  /** What the ICV covers: header, SK generic header, IV and ciphertext. */
  function Signed(h: Header, next: u8, n: nat, data: bytes): (b: bytes) {
    HeaderBytes(h) + ([next, 0] + W16(4 + n)) + data
  }

  /** `seal_message`, with the random IV as a parameter. */
  function Seal(c: Primitives, h: Header, ps: seq<Payload>, e: Encryption, i: Integrity, keyE: bytes, keyA: bytes, iv: bytes)
    : (r: Result<bytes>)
  {
    var chain :- Chain(ps);
    var plain := Padded(e, chain);
    var total := HEADER_LEN + 4 + IvLen(e) + CipherLen(e, |plain|) + IcvLen(i);
    var header := SealedHeader(h, total);
    var cipher :- c.encrypt(e, keyE, iv, plain, HeaderBytes(header));
    var signed := Signed(header, FirstKind(ps), |iv| + |cipher| + IcvLen(i), iv + cipher);
    var message := if i.NoIntegrity? then signed else signed + c.mac(i, keyA, signed);
    if |message| != total then Err else Ok(message)
  }

  function Unpad(next: u8, plain: bytes): (r: Result<seq<Payload>>) {
    if plain == [] then Err
    else
      var padding := plain[|plain| - 1];
      if padding + 1 > |plain| then Err else ReadChain(next, plain[..|plain| - padding - 1])
  }

  /** `open_message`. */
  function Open(c: Primitives, h: Header, p: Payload, e: Encryption, i: Integrity, keyE: bytes, keyA: bytes)
    : (r: Result<seq<Payload>>)
  {
    if !p.Encrypted? || |p.data| < IvLen(e) + IcvLen(i) then Err
    else
      var split := |p.data| - IcvLen(i);
      if !i.NoIntegrity? && c.mac(i, keyA, Signed(h, p.next, |p.data|, p.data[..split])) != p.data[split..] then Err
      else
        var plain :- c.decrypt(e, keyE, p.data[..IvLen(e)], p.data[IvLen(e)..split], HeaderBytes(h));
        Unpad(p.next, plain)
  }

  method Pad(e: Encryption, chain: bytes) returns (plain: bytes)
    ensures plain == Padded(e, chain)
  {
    var padding := PadLen(e, |chain|);
    plain := chain + Zeros(padding);
    plain := plain + [padding];
  }

  /** Header, SK generic header, IV, ciphertext and, unless there is no integrity algorithm, the ICV. */
  method Assemble(c: Primitives, h: Header, next: u8, i: Integrity, keyA: bytes, iv: bytes, cipher: bytes)
    returns (message: bytes)
    ensures var signed := Signed(h, next, |iv| + |cipher| + IcvLen(i), iv + cipher);
      message == if i.NoIntegrity? then signed else signed + c.mac(i, keyA, signed)
  {
    hide HeaderBytes, W16, IcvLen;
    message := HeaderBytes(h);
    message := message + ([next, 0] + W16(4 + (|iv| + |cipher| + IcvLen(i))));
    message := message + (iv + cipher);
    if !i.NoIntegrity? {
      message := message + c.mac(i, keyA, message);
    }
  }

  /** `seal_message` as it grows its buffers. */
  method SealMessage(c: Primitives, h: Header, ps: seq<Payload>, e: Encryption, i: Integrity, keyE: bytes, keyA: bytes, iv: bytes)
    returns (r: Result<bytes>)
    ensures r == Seal(c, h, ps, e, i, keyE, keyA, iv)
  {
    hide Chain, HeaderBytes, Signed, Padded, PadLen, IcvLen, IvLen, CipherLen, SealedHeader;
    var chain := IkeCodecLoops.EncodeChain(ps);
    if chain.Err? {
      return Err;
    }
    var plain := Pad(e, chain.value);
    var total := HEADER_LEN + 4 + IvLen(e) + CipherLen(e, |plain|) + IcvLen(i);
    var header := SealedHeader(h, total);
    var cipher := c.encrypt(e, keyE, iv, plain, HeaderBytes(header));
    if cipher.Err? {
      return Err;
    }
    var message := Assemble(c, header, FirstKind(ps), i, keyA, iv, cipher.value);
    if |message| != total {
      return Err;
    }
    return Ok(message);
  }
}
