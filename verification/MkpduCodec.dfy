/** The printer and parser as the source runs them: a growing buffer and a moving position. */
module MkpduCodec {
  import opened Wire
  import opened Mkpdu

  lemma ZerosStep(n: nat)
    ensures Zeros(n + 1) == Zeros(n) + [0]
  {
  }

  /** Pushes zero octets until the buffer length is a multiple of four. */
  method PadTo4(b: bytes) returns (r: bytes)
    ensures r == b + Pad4(|b|)
  {
    r := b;
    ghost var k: nat := 0;
    while |r| % 4 != 0
      invariant r == b + Zeros(k) && k <= |Pad4(|b|)|
      decreases |Pad4(|b|)| - k
    {
      r := r + [0];
      ZerosStep(k);
      k := k + 1;
    }
  }

  method PeerOctets(peers: seq<PeerId>) returns (r: bytes)
    ensures r == PeersBytes(peers)
  {
    r := [];
    for i := 0 to |peers|
      invariant r == PeersBytes(peers[..i])
    {
      assert peers[..i + 1][..i] == peers[..i];
      r := r + (BE(12, peers[i].mi) + BE(4, peers[i].mn));
    }
    assert peers[..|peers|] == peers;
  }

  /** Padding a buffer whose prefix is aligned pads by the rest's own length. */
  lemma PadAfterAligned(m: nat, n: nat)
    requires m % 4 == 0
    ensures Pad4(m + n) == Pad4(n)
  {
  }

  method PushSet(b: bytes, kind: u8, octet2: u8, flags: u8, data: bytes) returns (r: bytes)
    requires |b| % 4 == 0 && flags < 16
    ensures r == b + SetBytes(kind, octet2, flags, data) && |r| % 4 == 0
  {
    var head: bytes := [kind, octet2, 16 * flags + |data| / 256 % 16, |data| % 256];
    r := PadTo4(b + head + data);
    assert |b + head + data| == |b| + 4 + |data|;
    PadAfterAligned(|b| + 4, |data|);
    Pad4Aligns(|data|);
    hide Pad4;
    assert r == b + (head + data + Pad4(|data|));
  }

  method PushPeers(b: bytes, kind: u8, peers: seq<PeerId>) returns (r: bytes)
    requires |b| % 4 == 0
    ensures r == b + PeerSetBytes(kind, peers) && |r| % 4 == 0
  {
    hide PeersBytes, SetBytes;
    if peers == [] {
      return b;
    }
    var data := PeerOctets(peers);
    r := PushSet(b, kind, 0, 0, data);
  }

  method PushSakUse(b: bytes, use: Option<SakUse>) returns (r: bytes)
    requires |b| % 4 == 0
    ensures r == b + SakUseBytes(use) && |r| % 4 == 0
  {
    hide BE, SakUseOctet2, SakUseFlags, SetBytes;
    if use.None? {
      return b;
    }
    var u := use.value;
    var data := BE(12, u.latestKi.mi) + BE(4, u.latestKi.kn) + BE(4, u.latestLlpn)
                + BE(12, u.oldKi.mi) + BE(4, u.oldKi.kn) + BE(4, u.oldLlpn);
    r := PushSet(b, 3, SakUseOctet2(u), SakUseFlags(u), data);
  }

  method PushDistSak(b: bytes, dist: Option<DistSak>) returns (r: bytes)
    requires |b| % 4 == 0
    ensures r == b + DistSakBytes(dist) && |r| % 4 == 0
  {
    hide BE, SetBytes;
    if dist.None? {
      return b;
    }
    var d := dist.value;
    r := PushSet(b, 4, 64 * (d.an % 4) + 16 * (d.confidentialityOffset % 4), 0, BE(4, d.kn) + d.wrappedSak);
  }

  /** `MkaPdu::build_eapol`. */
  method BuildEapol(c: Crypto, p: Mkpdu, da: bytes, sa: bytes, ick: bytes) returns (r: Result<bytes>)
    ensures r == Build(c, p, da, sa, ick)
  {
    hide BE, PeerSetBytes, SakUseBytes, DistSakBytes;
    var b := p.basic;
    var len := 28 + |b.ckn|;
    var flags: u8 := 128 * Bit(b.keyServer) + 64 * Bit(b.macsecDesired) + 16 * (b.capability % 4) + len / 256 % 16;
    var body: bytes := [b.version, b.priority, flags, len % 256];
    body := body + BE(8, b.sci) + BE(12, b.mi) + BE(4, b.mn) + BE(4, b.algoAgility) + b.ckn;
    body := PadTo4(body);
    assert body == BasicBytes(b);
    assert |body| % 4 == 0;
    hide BasicBytes;
    body := PushPeers(body, 1, p.livePeers);
    body := PushPeers(body, 2, p.potentialPeers);
    body := PushSakUse(body, p.sakUse);
    body := PushDistSak(body, p.distSak);
    assert body == BodyBytes(p);
    hide BodyBytes;
    if |body| + ICV_LEN > 0xffff {
      return Err;
    }
    var eapol := [EAPOL_VERSION, EAPOL_TYPE_MKA] + BE(2, |body| + ICV_LEN) + body;
    var icv := ComputeIcv(c, ick, da, sa, eapol);
    return Ok(eapol + icv);
  }

  /** `read_peers`: consecutive 16-octet chunks. */
  method ReadPeerList(data: bytes) returns (peers: seq<PeerId>)
    requires |data| % 16 == 0
    ensures peers == ReadPeers(data)
  {
    peers := [];
    for i := 0 to |data| / 16
      invariant peers == ReadPeers(data[..16 * i])
    {
      var chunk := data[16 * i..16 * i + 16];
      ghost var next := data[..16 * (i + 1)];
      assert next[..|next| - 16] == data[..16 * i] && next[|next| - 16..] == chunk;
      peers := peers + [ReadPeer(chunk)];
    }
    assert data[..16 * (|data| / 16)] == data;
  }

  lemma DropDrop(b: bytes, m: nat, n: nat)
    ensures Drop(Drop(b, m), n) == Drop(b, m + n)
  {
  }

  lemma DropIs(b: bytes, m: nat)
    requires m <= |b|
    ensures Drop(b, m) == b[m..]
  {
  }

  lemma ReadSetsAt(body: bytes, pos: nat, acc: Sets)
    requires pos + 4 <= |body|
    ensures var length := Length12(body[pos + 2], body[pos + 3]);
      ReadSets(Drop(body, pos), acc)
      == if pos + 4 + length > |body| then Err
         else match ReadSet(body[pos], body[pos + 1], body[pos + 2], body[pos + 4..pos + 4 + length], acc)
              case Err => Err
              case Ok(next) => ReadSets(Drop(body, pos + (4 + Align4(length))), next)
  {
    DropIs(body, pos);
    hide ReadSets, ReadSet, Length12, Drop, Align4;
    var rest := Drop(body, pos);
    var length := Length12(rest[2], rest[3]);
    DropDrop(body, pos, 4 + Align4(length));
    ReadSetsStep(rest, acc);
    if pos + 4 + length <= |body| {
      assert rest[4..4 + length] == body[pos + 4..pos + 4 + length];
    }
  }

  /** The body of `parse_body`'s loop: what one parameter set contributes. */
  method ParseSet(kind: u8, octet2: u8, octet3: u8, data: bytes, acc: Sets) returns (r: Result<Sets>)
    ensures r == ReadSet(kind, octet2, octet3, data, acc)
  {
    hide ReadSakUse, ReadDistSak, ReadPeers;
    match kind {
      case 1 =>
        if |data| % 16 != 0 {
          return Err;
        }
        var peers := ReadPeerList(data);
        return Ok(acc.(live := peers));
      case 2 =>
        if |data| % 16 != 0 {
          return Err;
        }
        var peers := ReadPeerList(data);
        return Ok(acc.(potential := peers));
      case 3 =>
        if |data| >= 40 {
          return Ok(acc.(use := Some(ReadSakUse(octet2, octet3, data))));
        }
      case 4 =>
        return Ok(acc.(dist := Some(ReadDistSak(octet2, data))));
      case _ =>
    }
    return Ok(acc);
  }

  lemma NothingLeft(body: bytes, pos: nat, acc: Sets)
    requires pos + 4 > |body|
    ensures ReadSets(Drop(body, pos), acc) == Ok(acc)
  {
  }

  /** `MkaPdu::parse_body`: every octet access is in bounds and the scan terminates. */
  method ParseBody(body: bytes) returns (r: Result<Mkpdu>)
    ensures r == ReadBody(body)
  {
    hide ReadSets, ReadSet, ReadBasic;
    if |body| < 32 {
      return Err;
    }
    var basicLen := Length12(body[2], body[3]);
    hide Length12;
    if basicLen < 28 || 4 + basicLen > |body| {
      return Err;
    }
    var basic := ReadBasic(body, basicLen);
    var pos: nat := 4 + Align4(basicLen);
    var acc := Sets([], [], None, None);
    ghost var all := ReadSets(Drop(body, pos), acc);
    hide Drop, Align4;
    while pos + 4 <= |body|
      invariant ReadSets(Drop(body, pos), acc) == all
      decreases |body| - pos
    {
      var length := Length12(body[pos + 2], body[pos + 3]);
      ReadSetsAt(body, pos, acc);
      if pos + 4 + length > |body| {
        return Err;
      }
      var next := ParseSet(body[pos], body[pos + 1], body[pos + 2], body[pos + 4..pos + 4 + length], acc);
      if next.Err? {
        return Err;
      }
      acc := next.value;
      pos := pos + (4 + Align4(length));
    }
    NothingLeft(body, pos, acc);
    return Ok(Mkpdu(basic, acc.live, acc.potential, acc.use, acc.dist));
  }
}
