/** MKPDU framing (IEEE 802.1X-2020 clause 11.11): the EAPOL-MKA printer and its parser. */
module Mkpdu {
  import opened Wire

  /** A 96-bit Member Identifier, read as a big-endian number. */
  type Mi = x: int | 0 <= x < 0x1_000000_000000_000000_000000

  const ICV_LEN: nat := 16
  const EAPOL_VERSION: u8 := 3
  const EAPOL_TYPE_MKA: u8 := 5

  /** Key Identifier: the Key Server's MI plus its Key Number. */
  datatype KeyId = KeyId(mi: Mi, kn: u32)

  datatype PeerId = PeerId(mi: Mi, mn: u32)

  datatype Basic = Basic(
    version: u8, priority: u8, keyServer: bool, macsecDesired: bool, capability: u8,
    sci: u64, mi: Mi, mn: u32, algoAgility: u32, ckn: bytes)

  datatype SakUse = SakUse(
    latestAn: u8, latestTx: bool, latestRx: bool, oldAn: u8, oldTx: bool, oldRx: bool,
    plainTx: bool, plainRx: bool, delayProtect: bool,
    latestKi: KeyId, latestLlpn: u32, oldKi: KeyId, oldLlpn: u32)

  datatype DistSak = DistSak(
    an: u8, confidentialityOffset: u8, kn: u32, cipherSuite: Option<u64>, wrappedSak: bytes)

  datatype Mkpdu = Mkpdu(
    basic: Basic, livePeers: seq<PeerId>, potentialPeers: seq<PeerId>,
    sakUse: Option<SakUse>, distSak: Option<DistSak>)

  /** AES-CMAC and AES Key Wrap, left abstract. */
  datatype Crypto = Crypto(
    cmac: (bytes, bytes) -> bytes,
    wrap: (bytes, bytes) -> bytes,
    unwrap: (bytes, bytes) -> Option<bytes>)
  {
    /** A tag has 16 octets, and wrapping a 16-octet key gives 24 octets that unwrap to it. */
    ghost predicate Lawful() {
      && (forall k: bytes, m: bytes :: |cmac(k, m)| == 16)
      && (forall k: bytes, s: bytes :: |s| == 16 ==> |wrap(k, s)| == 24 && unwrap(k, wrap(k, s)) == Some(s))
    }
  }

  function Bit(b: bool): (v: u8) { if b then 1 else 0 }

  function Align4(n: nat): (r: nat) { (n + 3) / 4 * 4 }

  /** Zero octets that bring a length to a multiple of four. */
  function Pad4(n: nat): (b: bytes) { Zeros((4 - n % 4) % 4) }

  lemma Pad4Aligns(n: nat)
    ensures n + |Pad4(n)| == Align4(n)
  {
  }

  // ---------------------------------------------------------------- printer

  function PeerBytes(p: PeerId): (b: bytes)
    ensures |b| == 16
  {
    BE(12, p.mi) + BE(4, p.mn)
  }

  function PeersBytes(ps: seq<PeerId>): (b: bytes)
    ensures |b| == 16 * |ps|
  {
    if ps == [] then [] else PeersBytes(ps[..|ps| - 1]) + PeerBytes(ps[|ps| - 1])
  }

  /** One parameter set: type, octet 2, four flag bits with the high length bits, low length, data. */
  function SetBytes(kind: u8, octet2: u8, flags: u8, data: bytes): (b: bytes)
    requires flags < 16
  {
    [kind, octet2, 16 * flags + |data| / 256 % 16, |data| % 256] + data + Pad4(|data|)
  }

  function BasicBytes(b: Basic): (r: bytes) {
    var len := 28 + |b.ckn|;
    [b.version, b.priority,
     128 * Bit(b.keyServer) + 64 * Bit(b.macsecDesired) + 16 * (b.capability % 4) + len / 256 % 16,
     len % 256]
    + BE(8, b.sci) + BE(12, b.mi) + BE(4, b.mn) + BE(4, b.algoAgility) + b.ckn + Pad4(4 + len)
  }

  function PeerSetBytes(kind: u8, ps: seq<PeerId>): (b: bytes) {
    if ps == [] then [] else SetBytes(kind, 0, 0, PeersBytes(ps))
  }

  function SakUseOctet2(u: SakUse): (v: u8) {
    64 * (u.latestAn % 4) + 32 * Bit(u.latestTx) + 16 * Bit(u.latestRx)
    + 4 * (u.oldAn % 4) + 2 * Bit(u.oldTx) + Bit(u.oldRx)
  }

  function SakUseFlags(u: SakUse): (v: u8)
    ensures v < 16
  {
    8 * Bit(u.plainTx) + 4 * Bit(u.plainRx) + Bit(u.delayProtect)
  }

  function SakUseData(u: SakUse): (b: bytes)
    ensures |b| == 40
  {
    BE(12, u.latestKi.mi) + BE(4, u.latestKi.kn) + BE(4, u.latestLlpn)
    + BE(12, u.oldKi.mi) + BE(4, u.oldKi.kn) + BE(4, u.oldLlpn)
  }

  function SakUseBytes(u: Option<SakUse>): (b: bytes) {
    if u.None? then [] else SetBytes(3, SakUseOctet2(u.value), SakUseFlags(u.value), SakUseData(u.value))
  }

  function DistSakBytes(d: Option<DistSak>): (b: bytes) {
    if d.None? then []
    else SetBytes(4, 64 * (d.value.an % 4) + 16 * (d.value.confidentialityOffset % 4), 0,
                  BE(4, d.value.kn) + d.value.wrappedSak)
  }

  function BodyBytes(p: Mkpdu): (b: bytes) {
    BasicBytes(p.basic) + (PeerSetBytes(1, p.livePeers) + (PeerSetBytes(2, p.potentialPeers)
    + (SakUseBytes(p.sakUse) + DistSakBytes(p.distSak))))
  }

  /** ICV over DA | SA | Ethertype | EAPOL PDU. */
  function ComputeIcv(c: Crypto, ick: bytes, da: bytes, sa: bytes, eapol: bytes): (icv: bytes) {
    c.cmac(ick, da + sa + [0x88, 0x8e] + eapol)
  }

  function Build(c: Crypto, p: Mkpdu, da: bytes, sa: bytes, ick: bytes): (r: Result<bytes>) {
    var body := BodyBytes(p);
    if |body| + ICV_LEN > 0xffff then Err
    else
      var eapol := [EAPOL_VERSION, EAPOL_TYPE_MKA] + BE(2, |body| + ICV_LEN) + body;
      Ok(eapol + ComputeIcv(c, ick, da, sa, eapol))
  }

  // ----------------------------------------------------------------- parser

  function ReadPeer(b: bytes): (p: PeerId)
    requires |b| == 16
  {
    Mi12();
    Widths();
    PeerId(FromBE(b[..12]), FromBE(b[12..]))
  }

  lemma Mi12()
    ensures Pow256(12) == 0x1_000000_000000_000000_000000
  {
    Widths();
    assert Pow256(10) == 0x1_0000_0000_0000_0000_0000;
  }

  function ReadPeers(b: bytes): (ps: seq<PeerId>)
    requires |b| % 16 == 0
    ensures 16 * |ps| == |b|
  {
    if b == [] then [] else ReadPeers(b[..|b| - 16]) + [ReadPeer(b[|b| - 16..])]
  }

  datatype Sets = Sets(live: seq<PeerId>, potential: seq<PeerId>, use: Option<SakUse>, dist: Option<DistSak>)

  function ReadSakUse(octet2: u8, octet3: u8, data: bytes): (u: SakUse)
    requires |data| >= 40
  {
    Mi12();
    Widths();
    SakUse(octet2 / 64 % 4, octet2 / 32 % 2 == 1, octet2 / 16 % 2 == 1,
           octet2 / 4 % 4, octet2 / 2 % 2 == 1, octet2 % 2 == 1,
           octet3 / 128 % 2 == 1, octet3 / 64 % 2 == 1, octet3 / 16 % 2 == 1,
           KeyId(FromBE(data[0..12]), FromBE(data[12..16])), FromBE(data[16..20]),
           KeyId(FromBE(data[20..32]), FromBE(data[32..36])), FromBE(data[36..40]))
  }

  function ReadDistSak(octet2: u8, data: bytes): (d: DistSak) {
    Widths();
    var an := octet2 / 64 % 4;
    var offset := octet2 / 16 % 4;
    if |data| < 4 then DistSak(an, offset, 0, None, [])
    else
      var kn := FromBE(data[..4]);
      if |data| >= 36 then DistSak(an, offset, kn, Some(FromBE(data[4..12])), data[12..])
      else DistSak(an, offset, kn, None, data[4..])
  }

  /** The effect of one parameter set on what was read so far. */
  function ReadSet(kind: u8, octet2: u8, octet3: u8, data: bytes, acc: Sets): (r: Result<Sets>) {
    match kind
    case 1 => if |data| % 16 != 0 then Err else Ok(acc.(live := ReadPeers(data)))
    case 2 => if |data| % 16 != 0 then Err else Ok(acc.(potential := ReadPeers(data)))
    case 3 => if |data| >= 40 then Ok(acc.(use := Some(ReadSakUse(octet2, octet3, data)))) else Ok(acc)
    case 4 => Ok(acc.(dist := Some(ReadDistSak(octet2, data))))
    case _ => Ok(acc)
  }

  /** A 12-bit length: four bits of one octet, then the next octet. */
  function Length12(hi: u8, lo: u8): (n: nat)
    ensures n < 4096
  {
    256 * (hi % 16) + lo
  }

  function Drop(b: bytes, n: nat): (r: bytes)
    ensures |r| <= |b| && (n > 0 && b != [] ==> |r| < |b|)
  {
    if n <= |b| then b[n..] else []
  }

  /** The parameter sets in `rest`, read front to back; later sets override earlier ones. */
  function ReadSets(rest: bytes, acc: Sets): (r: Result<Sets>)
    decreases |rest|
  {
    if |rest| < 4 then Ok(acc)
    else
      var length := Length12(rest[2], rest[3]);
      if 4 + length > |rest| then Err
      else
        var next :- ReadSet(rest[0], rest[1], rest[2], rest[4..4 + length], acc);
        ReadSets(Drop(rest, 4 + Align4(length)), next)
  }

  lemma ReadSetsStep(rest: bytes, acc: Sets)
    requires |rest| >= 4
    ensures var n := Length12(rest[2], rest[3]);
      ReadSets(rest, acc)
      == if 4 + n > |rest| then Err
         else match ReadSet(rest[0], rest[1], rest[2], rest[4..4 + n], acc)
              case Err => Err
              case Ok(next) => ReadSets(Drop(rest, 4 + Align4(n)), next)
  {
    hide ReadSet, Length12, Align4, Drop;
  }

  function ReadBasic(body: bytes, len: nat): (b: Basic)
    requires 28 <= len && 4 + len <= |body|
  {
    Mi12();
    Widths();
    Basic(body[0], body[1], body[2] / 128 % 2 == 1, body[2] / 64 % 2 == 1, body[2] / 16 % 4,
          FromBE(body[4..12]), FromBE(body[12..24]), FromBE(body[24..28]), FromBE(body[28..32]),
          body[32..4 + len])
  }

  function ReadBody(body: bytes): (r: Result<Mkpdu>) {
    if |body| < 32 then Err
    else
      var len := Length12(body[2], body[3]);
      if len < 28 || 4 + len > |body| then Err
      else
        var s :- ReadSets(Drop(body, 4 + Align4(len)), Sets([], [], None, None));
        Ok(Mkpdu(ReadBasic(body, len), s.live, s.potential, s.use, s.dist))
  }

  /** `Ok(None)` is a frame that is not EAPOL-MKA. */
  function Parse(c: Crypto, eapol: bytes, da: bytes, sa: bytes, ick: bytes): (r: Result<Option<Mkpdu>>) {
    if |eapol| < 4 || eapol[1] != EAPOL_TYPE_MKA then Ok(None)
    else
      var bodyLen := Read16(eapol[2], eapol[3]);
      if bodyLen < ICV_LEN + 4 || |eapol| < 4 + bodyLen || bodyLen % 4 != 0 then Err
      else
        var icvStart := 4 + bodyLen - ICV_LEN;
        if ComputeIcv(c, ick, da, sa, eapol[..icvStart]) != eapol[icvStart..icvStart + ICV_LEN] then Err
        else
          var p :- ReadBody(eapol[4..icvStart]);
          Ok(Some(p))
  }
}
