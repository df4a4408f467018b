/** The IKEv2 wire codec (src/ipsec/ikev2/codec.rs, section 3 of RFC 7296): printers and parsers. */
module IkeCodec {
  import opened Wire

  const HEADER_LEN: nat := 28
  const SA: u8 := 33
  const KE: u8 := 34
  const IDI: u8 := 35
  const IDR: u8 := 36
  const CERT: u8 := 37
  const CERTREQ: u8 := 38
  const AUTH: u8 := 39
  const NONCE: u8 := 40
  const NOTIFY: u8 := 41
  const DELETE: u8 := 42
  const TSI: u8 := 44
  const TSR: u8 := 45
  const SK: u8 := 46
  const CP: u8 := 47
  const EAP: u8 := 48

  type u128 = x: int | 0 <= x < 0x1_0000_0000_0000_0000_0000_0000_0000_0000

  /** An address as its number. */
  datatype Ip = V4(v4: u32) | V6(v6: u128)

  datatype Attribute = Attribute(kind: u16, value: bytes)
  datatype Transform = Transform(kind: u8, id: u16, attributes: seq<Attribute>)
  datatype Proposal = Proposal(number: u8, protocol: u8, spi: bytes, transforms: seq<Transform>)
  datatype TsSelector = TsSelector(kind: u8, protocol: u8, startPort: u16, endPort: u16, start: Ip, end: Ip)

  datatype Payload =
    | Sa(proposals: seq<Proposal>)
    | Ke(group: u16, data: bytes)
    | Id(initiator: bool, idType: u8, data: bytes)
    | Cert(encoding: u8, data: bytes)
    | CertReq(encoding: u8, data: bytes)
    | Auth(method_: u8, data: bytes)
    | Nonce(data: bytes)
    | Notify(protocol: u8, spi: bytes, notifyType: u16, data: bytes)
    | Delete(protocol: u8, spiSize: u8, spis: seq<u32>)
    | Ts(initiator: bool, selectors: seq<TsSelector>)
    | Config(attributes: seq<Attribute>)
    | Eap(data: bytes)
    | Encrypted(next: u8, data: bytes)
    | Other(kind: u8, data: bytes)

  datatype Exchange = IkeSaInit | IkeAuth | CreateChildSa | Informational

  datatype Header = Header(
    initiatorSpi: u64, responderSpi: u64, nextPayload: u8, version: u8, exchange: Exchange, flags: u8,
    messageId: u32, length: u32)

  datatype Message = Message(header: Header, payloads: seq<Payload>)

  /** The low 16 bits, most significant octet first. */
  function W16(n: nat): (b: bytes)
    ensures |b| == 2
  {
    [n / 256 % 256, n % 256]
  }

  function Kind(p: Payload): (k: u8) {
    match p
    case Sa(_) => SA
    case Ke(_, _) => KE
    case Id(initiator, _, _) => if initiator then IDI else IDR
    case Cert(_, _) => CERT
    case CertReq(_, _) => CERTREQ
    case Auth(_, _) => AUTH
    case Nonce(_) => NONCE
    case Notify(_, _, _, _) => NOTIFY
    case Delete(_, _, _) => DELETE
    case Ts(initiator, _) => if initiator then TSI else TSR
    case Config(_) => CP
    case Eap(_) => EAP
    case Encrypted(_, _) => SK
    case Other(kind, _) => kind
  }

  function FirstKind(ps: seq<Payload>): (k: u8) { if ps == [] then 0 else Kind(ps[0]) }

  // --------------------------------------------------------------- printers

  /** A key length of two octets is written in the short form. */
  function AttrBytes(a: Attribute): (b: bytes) {
    if a.kind == 14 && |a.value| == 2 then W16(0x800e) + a.value else W16(a.kind) + W16(|a.value|) + a.value
  }

  function AttrsBytes(attributes: seq<Attribute>): (b: bytes) {
    if attributes == [] then [] else AttrBytes(attributes[0]) + AttrsBytes(attributes[1..])
  }

  function TransformHead(t: Transform, last: bool): (b: bytes)
    ensures |b| == 8
  {
    var n := 8 + |AttrsBytes(t.attributes)|;
    [if last then 0 else 3, 0, n / 256 % 256, n % 256, t.kind, 0, t.id / 256, t.id % 256]
  }

  function TransformsBytes(ts: seq<Transform>): (b: bytes) {
    if ts == [] then []
    else TransformHead(ts[0], |ts| == 1) + AttrsBytes(ts[0].attributes) + TransformsBytes(ts[1..])
  }

  function ProposalHead(p: Proposal, last: bool): (b: bytes)
    ensures |b| == 8
  {
    var n := 8 + |p.spi| + |TransformsBytes(p.transforms)|;
    [if last then 0 else 2, 0, n / 256 % 256, n % 256, p.number, p.protocol, |p.spi| % 256, |p.transforms| % 256]
  }

  function SaBytes(ps: seq<Proposal>): (r: Result<bytes>) {
    if ps == [] then Ok([])
    else if |ps[0].spi| > 255 then Err
    else
      var rest :- SaBytes(ps[1..]);
      Ok(ProposalHead(ps[0], |ps| == 1) + (ps[0].spi + TransformsBytes(ps[0].transforms)) + rest)
  }

  function AddressBytes(s: TsSelector): (r: Result<bytes>) {
    if s.kind == 7 && s.start.V4? && s.end.V4? then Ok(BE(4, s.start.v4) + BE(4, s.end.v4))
    else if s.kind == 8 && s.start.V6? && s.end.V6? then Ok(BE(16, s.start.v6) + BE(16, s.end.v6))
    else Err
  }

  function SelectorHead(s: TsSelector): (b: bytes)
    ensures |b| == 8
  {
    [s.kind, s.protocol, 0, if s.kind == 7 then 16 else 40, s.startPort / 256, s.startPort % 256,
     s.endPort / 256, s.endPort % 256]
  }

  function SelectorsBytes(ss: seq<TsSelector>): (r: Result<bytes>) {
    if ss == [] then Ok([])
    else
      var addresses :- AddressBytes(ss[0]);
      var rest :- SelectorsBytes(ss[1..]);
      Ok(SelectorHead(ss[0]) + addresses + rest)
  }

  function SpiBytes(size: u8, spi: u32): (r: Result<bytes>) {
    if size == 4 then Ok(BE(4, spi)) else if size == 8 then Ok(BE(8, spi)) else Err
  }

  function SpisBytes(size: u8, spis: seq<u32>): (r: Result<bytes>) {
    if spis == [] then Ok([])
    else
      var spi :- SpiBytes(size, spis[0]);
      var rest :- SpisBytes(size, spis[1..]);
      Ok(spi + rest)
  }

  function ConfigBytes(attributes: seq<Attribute>): (r: Result<bytes>) {
    if attributes == [] then Ok([])
    else if |attributes[0].value| > 0xffff then Err
    else
      var rest :- ConfigBytes(attributes[1..]);
      Ok(W16(attributes[0].kind) + W16(|attributes[0].value|) + attributes[0].value + rest)
  }

  /** `encode_body`. */
  function Body(p: Payload): (r: Result<bytes>) {
    match p
    case Sa(proposals) => SaBytes(proposals)
    case Ke(group, data) => Ok(W16(group) + [0, 0] + data)
    case Id(_, idType, data) => Ok([idType, 0, 0, 0] + data)
    case Cert(encoding, data) => Ok([encoding] + data)
    case CertReq(encoding, data) => Ok([encoding] + data)
    case Auth(m, data) => Ok([m, 0, 0, 0] + data)
    case Nonce(data) => Ok(data)
    case Notify(protocol, spi, notifyType, data) =>
      if |spi| > 255 then Err else Ok([protocol, |spi|] + W16(notifyType) + spi + data)
    case Delete(protocol, size, spis) =>
      var tail :- SpisBytes(size, spis);
      Ok([protocol, size] + W16(|spis|) + tail)
    case Ts(_, selectors) =>
      var tail :- SelectorsBytes(selectors);
      Ok([|selectors| % 256, 0, 0, 0] + tail)
    case Config(attributes) => ConfigBytes(attributes)
    case Eap(data) => Ok(data)
    case Encrypted(_, data) => Ok(data)
    case Other(_, data) => Ok(data)
  }

  function Chain(ps: seq<Payload>): (r: Result<bytes>) {
    if ps == [] then Ok([])
    else
      var body :- Body(ps[0]);
      var rest :- Chain(ps[1..]);
      if 4 + |body| > 0xffff then Err
      else Ok([FirstKind(ps[1..]), 0] + W16(4 + |body|) + body + rest)
  }

  function ExchangeNumber(e: Exchange): (n: u8) {
    match e case IkeSaInit => 34 case IkeAuth => 35 case CreateChildSa => 36 case Informational => 37
  }

  function HeaderBytes(h: Header): (b: bytes)
    ensures |b| == HEADER_LEN
  {
    BE(8, h.initiatorSpi) + BE(8, h.responderSpi)
    + [h.nextPayload, h.version, ExchangeNumber(h.exchange), h.flags] + BE(4, h.messageId) + BE(4, h.length)
  }

  function Encode(m: Message): (r: Result<bytes>) {
    var chain :- Chain(m.payloads);
    var length := (HEADER_LEN + |chain|) % 0x1_0000_0000;
    Ok(HeaderBytes(m.header.(nextPayload := FirstKind(m.payloads), length := length)) + chain)
  }

  // ---------------------------------------------------------------- parsers

  function ReadAttrs(b: bytes): (r: Result<seq<Attribute>>) {
    if |b| < 4 then Ok([])
    else if Read16(b[0], b[1]) >= 0x8000 then
      var rest :- ReadAttrs(b[4..]);
      Ok([Attribute(Read16(b[0], b[1]) - 0x8000, b[2..4])] + rest)
    else
      var n := 4 + Read16(b[2], b[3]);
      if n > |b| then Err
      else
        var rest :- ReadAttrs(b[n..]);
        Ok([Attribute(Read16(b[0], b[1]), b[4..n])] + rest)
  }

  function ReadTransforms(count: nat, b: bytes): (r: Result<seq<Transform>>) {
    if count == 0 then Ok([])
    else if |b| < 8 then Err
    else
      var n := Read16(b[2], b[3]);
      if n < 8 || n > |b| then Err
      else
        var attributes :- ReadAttrs(b[8..n]);
        var rest :- ReadTransforms(count - 1, b[n..]);
        Ok([Transform(b[4], Read16(b[6], b[7]), attributes)] + rest)
  }

  /** One proposal of `n` octets. */
  function ReadProposal(b: bytes): (r: Result<Proposal>)
    requires |b| >= 8
  {
    if 8 + b[6] > |b| then Err
    else
      var transforms :- ReadTransforms(b[7], b[8 + b[6]..]);
      Ok(Proposal(b[4], b[5], b[8..8 + b[6]], transforms))
  }

  function ReadSa(b: bytes): (r: Result<seq<Proposal>>) {
    if |b| < 8 then Ok([])
    else
      var n := Read16(b[2], b[3]);
      if n < 8 || n > |b| then Err
      else
        var p :- ReadProposal(b[..n]);
        if b[0] == 0 then Ok([p])
        else
          var rest :- ReadSa(b[n..]);
          Ok([p] + rest)
  }

  function ReadAddresses(kind: u8, n: nat, b: bytes): (r: Result<(Ip, Ip)>)
    requires 8 <= n <= |b|
  {
    Widths();
    Width16();
    if kind == 7 && n == 16 then Ok((V4(FromBE(b[8..12])), V4(FromBE(b[12..16]))))
    else if kind == 8 && n == 40 then Ok((V6(FromBE(b[8..24])), V6(FromBE(b[24..40]))))
    else Err
  }

  function ReadSelectors(count: nat, b: bytes): (r: Result<seq<TsSelector>>) {
    if count == 0 then Ok([])
    else if |b| < 8 then Err
    else
      var n := Read16(b[2], b[3]);
      if n < 8 || n > |b| then Err
      else
        var addresses :- ReadAddresses(b[0], n, b);
        var rest :- ReadSelectors(count - 1, b[n..]);
        Ok([TsSelector(b[0], b[1], Read16(b[4], b[5]), Read16(b[6], b[7]), addresses.0, addresses.1)] + rest)
  }

  function ReadSpi(size: u8, b: bytes): (r: Result<u32>)
    requires |b| == size
  {
    Widths();
    if size == 4 then Ok(FromBE(b))
    else if size == 8 then if FromBE(b[..4]) != 0 then Err else Ok(FromBE(b[4..]))
    else Ok(0)
  }

  function ReadSpis(size: u8, count: nat, b: bytes): (r: Result<seq<u32>>)
    decreases count
  {
    if count == 0 then Ok([])
    else if |b| < size then Err
    else
      var spi :- ReadSpi(size, b[..size]);
      var rest :- ReadSpis(size, count - 1, b[size..]);
      Ok([spi] + rest)
  }

  function ReadConfig(b: bytes): (r: Result<seq<Attribute>>) {
    if |b| < 4 then Ok([])
    else
      var n := 4 + Read16(b[2], b[3]);
      if n > |b| then Err
      else
        var rest :- ReadConfig(b[n..]);
        Ok([Attribute(Read16(b[0], b[1]) % 0x8000, b[4..n])] + rest)
  }

  function ReadNotify(b: bytes): (r: Result<Payload>) {
    if |b| < 4 || 4 + b[1] > |b| then Err
    else Ok(Notify(b[0], b[4..4 + b[1]], Read16(b[2], b[3]), b[4 + b[1]..]))
  }

  function ReadDelete(b: bytes): (r: Result<Payload>) {
    if |b| < 4 || (b[1] != 0 && b[1] != 4 && b[1] != 8) || 4 + Read16(b[2], b[3]) * b[1] > |b| then Err
    else
      var spis :- ReadSpis(b[1], Read16(b[2], b[3]), b[4..]);
      Ok(Delete(b[0], b[1], spis))
  }

  function ReadTs(initiator: bool, b: bytes): (r: Result<Payload>) {
    if |b| < 4 then Err
    else
      var selectors :- ReadSelectors(b[0], b[4..]);
      Ok(Ts(initiator, selectors))
  }

  /** `decode_payload`. */
  function ReadBody(kind: u8, b: bytes, next: u8): (r: Result<Payload>) {
    if kind == SA then
      var proposals :- ReadSa(b);
      Ok(Sa(proposals))
    else if kind == KE then if |b| < 4 then Err else Ok(Ke(Read16(b[0], b[1]), b[4..]))
    else if kind == IDI || kind == IDR then if |b| < 4 then Err else Ok(Id(kind == IDI, b[0], b[4..]))
    else if kind == CERT then if b == [] then Err else Ok(Cert(b[0], b[1..]))
    else if kind == CERTREQ then if b == [] then Err else Ok(CertReq(b[0], b[1..]))
    else if kind == AUTH then if |b| < 4 then Err else Ok(Auth(b[0], b[4..]))
    else if kind == NONCE then Ok(Nonce(b))
    else if kind == NOTIFY then ReadNotify(b)
    else if kind == DELETE then ReadDelete(b)
    else if kind == TSI || kind == TSR then ReadTs(kind == TSI, b)
    else if kind == CP then
      var attributes :- ReadConfig(b);
      Ok(Config(attributes))
    else if kind == EAP then Ok(Eap(b))
    else if kind == SK then Ok(Encrypted(next, b))
    else Ok(Other(kind, b))
  }

  /** `decode_chain`: nothing may follow the last payload. */
  function ReadChain(kind: u8, b: bytes): (r: Result<seq<Payload>>)
    decreases b
  {
    if kind == 0 then if b == [] then Ok([]) else Err
    else if |b| < 4 then Err
    else
      var n := Read16(b[2], b[3]);
      if n < 4 || n > |b| then Err
      else
        var p :- ReadBody(kind, b[4..n], b[0]);
        if kind == SK then if b[n..] == [] then Ok([p]) else Err
        else
          var rest :- ReadChain(b[0], b[n..]);
          Ok([p] + rest)
  }

  function ReadExchange(n: u8): (r: Option<Exchange>) {
    if n == 34 then Some(IkeSaInit)
    else if n == 35 then Some(IkeAuth)
    else if n == 36 then Some(CreateChildSa)
    else if n == 37 then Some(Informational)
    else None
  }

  function ReadHeader(b: bytes): (r: Result<Header>) {
    Widths();
    if |b| < HEADER_LEN then Err
    else
      var exchange := ReadExchange(b[18]);
      var length := FromBE(b[24..28]);
      if exchange.None? || b[17] / 16 != 2 || length > |b| || length < HEADER_LEN then Err
      else
        Ok(Header(FromBE(b[..8]), FromBE(b[8..16]), b[16], b[17], exchange.value, b[19], FromBE(b[20..24]), length))
  }

  function Decode(b: bytes): (r: Result<Message>) {
    var header :- ReadHeader(b);
    if header.length > |b| || header.length < HEADER_LEN then Err
    else
      var payloads :- ReadChain(header.nextPayload, b[HEADER_LEN..header.length]);
      Ok(Message(header, payloads))
  }

  lemma Width16()
    ensures Pow256(16) == 0x1_0000_0000_0000_0000_0000_0000_0000_0000
  {
    Widths();
    PowSum(8, 8);
  }

  lemma {:induction false} PowSum(a: nat, b: nat)
    ensures Pow256(a + b) == Pow256(a) * Pow256(b)
  {
    if b > 0 {
      PowSum(a, b - 1);
      assert Pow256(a + b) == 256 * Pow256(a + (b - 1));
    }
  }
}
