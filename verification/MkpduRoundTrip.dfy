/** Parsing a built MKPDU gives the MKPDU back, exactly when its sizes fit their fields. */
module MkpduRoundTrip {
  import opened Wire
  import opened Mkpdu

  /** What the MKPDU fields can carry. */
  predicate Encodable(p: Mkpdu) {
    && |p.basic.ckn| <= 4067
    && p.basic.capability < 4
    && |p.livePeers| <= 255
    && |p.potentialPeers| <= 255
    && (p.sakUse.Some? ==> p.sakUse.value.latestAn < 4 && p.sakUse.value.oldAn < 4)
    && (p.distSak.Some? ==> var d := p.distSak.value;
         d.an < 4 && d.confidentialityOffset < 4 && d.cipherSuite.None? && |d.wrappedSak| < 32)
  }

  lemma Field(pre: bytes, f: bytes, post: bytes)
    ensures (pre + f + post)[|pre|..|pre| + |f|] == f
  {
  }

  lemma {:induction false} PeersRoundTrip(ps: seq<PeerId>)
    ensures ReadPeers(PeersBytes(ps)) == ps
  {
    if ps != [] {
      var n := |ps| - 1;
      var last := PeerBytes(ps[n]);
      PeersRoundTrip(ps[..n]);
      Mi12();
      Widths();
      FromBEOfBE(12, ps[n].mi);
      FromBEOfBE(4, ps[n].mn);
      Split(BE(12, ps[n].mi), BE(4, ps[n].mn));
      Split(PeersBytes(ps[..n]), last);
      assert ps == ps[..n] + [ps[n]];
    }
  }

  /** Cutting six consecutive fields apart. */
  lemma SixFields(a: bytes, b: bytes, c: bytes, d: bytes, e: bytes, f: bytes)
    requires |a| == |d| == 12 && |b| == |c| == |e| == |f| == 4
    ensures var s := a + b + c + d + e + f;
      && s[0..12] == a && s[12..16] == b && s[16..20] == c
      && s[20..32] == d && s[32..36] == e && s[36..40] == f
  {
  }

  lemma SakUseDataRoundTrip(u: SakUse)
    ensures var data := SakUseData(u);
      && FromBE(data[0..12]) == u.latestKi.mi && FromBE(data[12..16]) == u.latestKi.kn
      && FromBE(data[16..20]) == u.latestLlpn
      && FromBE(data[20..32]) == u.oldKi.mi && FromBE(data[32..36]) == u.oldKi.kn
      && FromBE(data[36..40]) == u.oldLlpn
  {
    Mi12();
    Widths();
    FromBEOfBE(12, u.latestKi.mi);
    FromBEOfBE(4, u.latestKi.kn);
    FromBEOfBE(4, u.latestLlpn);
    FromBEOfBE(12, u.oldKi.mi);
    FromBEOfBE(4, u.oldKi.kn);
    FromBEOfBE(4, u.oldLlpn);
    hide BE, FromBE;
    SixFields(BE(12, u.latestKi.mi), BE(4, u.latestKi.kn), BE(4, u.latestLlpn),
              BE(12, u.oldKi.mi), BE(4, u.oldKi.kn), BE(4, u.oldLlpn));
  }

  /** Six bit fields of one octet, packed as 2+1+1+2+1+1 bits. */
  lemma PackedOctet(a: nat, b: nat, c: nat, d: nat, e: nat, f: nat)
    requires a < 4 && b < 2 && c < 2 && d < 4 && e < 2 && f < 2
    ensures var x := 64 * a + 32 * b + 16 * c + 4 * d + 2 * e + f;
      && x < 256 && x / 64 % 4 == a && x / 32 % 2 == b && x / 16 % 2 == c
      && x / 4 % 4 == d && x / 2 % 2 == e && x % 2 == f
  {
    var x := 64 * a + 32 * b + 16 * c + 4 * d + 2 * e + f;
    assert x / 64 == a;
    assert x / 32 == 2 * a + b;
    assert x / 16 == 4 * a + 2 * b + c;
    assert x / 4 == 4 * (4 * a + 2 * b + c) + d;
    assert x / 2 == 2 * (16 * a + 8 * b + 4 * c + d) + e;
    assert x == 2 * (32 * a + 16 * b + 8 * c + 2 * d + e) + f;
  }

  lemma SakUseOctet2Value(u: SakUse)
    requires u.latestAn < 4 && u.oldAn < 4
    ensures SakUseOctet2(u)
         == 64 * u.latestAn + 32 * Bit(u.latestTx) + 16 * Bit(u.latestRx) + 4 * u.oldAn + 2 * Bit(u.oldTx) + Bit(u.oldRx)
  {
  }

  lemma SakUseOctet2Bits(u: SakUse)
    requires u.latestAn < 4 && u.oldAn < 4
    ensures var x := SakUseOctet2(u);
      && x / 64 % 4 == u.latestAn && (x / 32 % 2 == 1) == u.latestTx && (x / 16 % 2 == 1) == u.latestRx
      && x / 4 % 4 == u.oldAn && (x / 2 % 2 == 1) == u.oldTx && (x % 2 == 1) == u.oldRx
  {
    SakUseOctet2Value(u);
    hide SakUseOctet2;
    var b, c, e, f := Bit(u.latestTx), Bit(u.latestRx), Bit(u.oldTx), Bit(u.oldRx);
    PackedOctet(u.latestAn, b, c, u.oldAn, e, f);
  }

  lemma SakUseFlagBits(u: SakUse)
    ensures var y := 16 * SakUseFlags(u);
      y < 256 && (y / 128 % 2 == 1) == u.plainTx && (y / 64 % 2 == 1) == u.plainRx && (y / 16 % 2 == 1) == u.delayProtect
  {
  }

  lemma SakUseRoundTrip(u: SakUse, flags: u8)
    requires u.latestAn < 4 && u.oldAn < 4 && flags == SakUseFlags(u)
    ensures ReadSakUse(SakUseOctet2(u), 16 * flags, SakUseData(u)) == u
  {
    hide BE, FromBE, Pow256;
    SakUseDataRoundTrip(u);
    SakUseOctet2Bits(u);
    SakUseFlagBits(u);
    hide SakUseData, SakUseOctet2, SakUseFlags;
  }

  lemma SetLayout(kind: u8, octet2: u8, flags: u8, data: bytes, rest: bytes)
    requires flags < 16 && |data| < 4096
    ensures var all := SetBytes(kind, octet2, flags, data) + rest;
      && |all| >= 4 + |data| && all[..4] == [kind, octet2, 16 * flags + |data| / 256, |data| % 256]
      && all[4..4 + |data|] == data && all[4 + |data|..] == Pad4(|data|) + rest
  {
    hide Pad4;
  }

  lemma SetTail(all: bytes, n: nat, rest: bytes)
    requires 4 + n <= |all| && all[4 + n..] == Pad4(n) + rest
    ensures Drop(all, 4 + Align4(n)) == rest
  {
    Pad4Aligns(n);
    hide Pad4, Align4;
    Split(Pad4(n), rest);
    assert all[4 + n..][|Pad4(n)|..] == all[4 + n + |Pad4(n)|..];
  }

  lemma Length12Packed(flags: nat, n: nat)
    requires flags < 16 && n < 4096
    ensures 16 * flags + n / 256 < 256 && Length12(16 * flags + n / 256, n % 256) == n
  {
    assert (16 * flags + n / 256) % 16 == n / 256;
  }

  /** A printed set is consumed whole and leaves the rest. */
  lemma ReadOneSet(kind: u8, octet2: u8, flags: u8, data: bytes, rest: bytes, acc: Sets)
    requires flags < 16 && |data| < 4096
    ensures ReadSets(SetBytes(kind, octet2, flags, data) + rest, acc)
         == match ReadSet(kind, octet2, 16 * flags + |data| / 256, data, acc)
            case Err => Err
            case Ok(next) => ReadSets(rest, next)
  {
    hide SetBytes, ReadSet, ReadSets, Length12, Pad4, Align4, Drop;
    var all := SetBytes(kind, octet2, flags, data) + rest;
    SetLayout(kind, octet2, flags, data, rest);
    Length12Packed(flags, |data|);
    SetTail(all, |data|, rest);
    assert all[0] == all[..4][0] && all[1] == all[..4][1] && all[2] == all[..4][2] && all[3] == all[..4][3];
    ReadSetsStep(all, acc);
  }

  lemma ReadPeerSet(kind: u8, ps: seq<PeerId>, rest: bytes, acc: Sets)
    requires kind == 1 || kind == 2
    requires |ps| <= 255
    requires ps == [] ==> (if kind == 1 then acc.live else acc.potential) == []
    ensures ReadSets(PeerSetBytes(kind, ps) + rest, acc)
         == ReadSets(rest, if kind == 1 then acc.(live := ps) else acc.(potential := ps))
  {
    hide PeersBytes, ReadPeers, ReadSets, SetBytes;
    if ps == [] {
      assert PeerSetBytes(kind, ps) + rest == rest;
    } else {
      ReadOneSet(kind, 0, 0, PeersBytes(ps), rest, acc);
      PeersRoundTrip(ps);
    }
  }

  lemma ReadSakUseOne(u: SakUse, acc: Sets)
    requires u.latestAn < 4 && u.oldAn < 4
    ensures ReadSet(3, SakUseOctet2(u), 16 * SakUseFlags(u), SakUseData(u), acc) == Ok(acc.(use := Some(u)))
  {
    SakUseRoundTrip(u, SakUseFlags(u));
    hide SakUseData, SakUseOctet2, SakUseFlags, ReadSakUse;
  }

  lemma ReadSakUseSet(u: Option<SakUse>, rest: bytes, acc: Sets)
    requires u.Some? ==> u.value.latestAn < 4 && u.value.oldAn < 4
    requires acc.use.None?
    ensures ReadSets(SakUseBytes(u) + rest, acc) == ReadSets(rest, acc.(use := u))
  {
    if u.None? {
      assert SakUseBytes(u) + rest == rest;
    } else {
      hide SakUseData, SakUseOctet2, SakUseFlags, SetBytes, ReadSets, ReadSet;
      ReadSakUseOne(u.value, acc);
      ReadOneSet(3, SakUseOctet2(u.value), SakUseFlags(u.value), SakUseData(u.value), rest, acc);
    }
  }

  /** What the parser makes of a printed Distributed SAK of any wrapped-key size that fits. */
  lemma ReadDistSakData(d: DistSak)
    requires d.an < 4 && d.confidentialityOffset < 4
    ensures var r := ReadDistSak(64 * d.an + 16 * d.confidentialityOffset, BE(4, d.kn) + d.wrappedSak);
      if |d.wrappedSak| < 32 then r == d.(cipherSuite := None)
      else |r.wrappedSak| == |d.wrappedSak| - 8
  {
    Widths();
    FromBEOfBE(4, d.kn);
    hide BE, FromBE, Pow256;
    Split(BE(4, d.kn), d.wrappedSak);
  }

  lemma DistSakSet(d: DistSak)
    requires d.an < 4 && d.confidentialityOffset < 4
    ensures DistSakBytes(Some(d))
         == SetBytes(4, 64 * d.an + 16 * d.confidentialityOffset, 0, BE(4, d.kn) + d.wrappedSak)
  {
    hide BE, SetBytes;
  }

  lemma ReadDistSakSet(d: DistSak, acc: Sets)
    requires |d.wrappedSak| <= 4091 && d.an < 4 && d.confidentialityOffset < 4
    ensures ReadSets(DistSakBytes(Some(d)), acc)
         == Ok(acc.(dist := Some(ReadDistSak(64 * d.an + 16 * d.confidentialityOffset, BE(4, d.kn) + d.wrappedSak))))
  {
    DistSakSet(d);
    hide BE, ReadDistSak, DistSakBytes;
    ReadOneSet(4, 64 * d.an + 16 * d.confidentialityOffset, 0, BE(4, d.kn) + d.wrappedSak, [], acc);
    hide SetBytes;
    assert DistSakBytes(Some(d)) + [] == DistSakBytes(Some(d));
  }

  lemma BasicFields(h: bytes, sci: bytes, mi: bytes, mn: bytes, algo: bytes, ckn: bytes, rest: bytes)
    requires |h| == |mn| == |algo| == 4 && |sci| == 8 && |mi| == 12
    ensures var s := h + sci + mi + mn + algo + ckn + rest;
      && s[..4] == h && s[4..12] == sci && s[12..24] == mi && s[24..28] == mn && s[28..32] == algo
      && s[32..32 + |ckn|] == ckn && s[32 + |ckn|..] == rest
  {
  }

  lemma BasicFlags(ks: bool, md: bool, cap: nat, hi: nat)
    requires cap < 4 && hi < 16
    ensures var x := 128 * Bit(ks) + 64 * Bit(md) + 16 * cap + hi;
      x < 256 && (x / 128 % 2 == 1) == ks && (x / 64 % 2 == 1) == md && x / 16 % 4 == cap && x % 16 == hi
  {
    var x, k, m := 128 * Bit(ks) + 64 * Bit(md) + 16 * cap + hi, Bit(ks), Bit(md);
    assert x / 128 == k;
    assert x / 64 == 2 * k + m;
    assert x / 16 == 4 * (2 * k + m) + cap;
  }

  function BasicHead(b: Basic): (h: bytes)
    requires b.capability < 4 && |b.ckn| <= 4067
  {
    [b.version, b.priority,
     128 * Bit(b.keyServer) + 64 * Bit(b.macsecDesired) + 16 * b.capability + (28 + |b.ckn|) / 256,
     (28 + |b.ckn|) % 256]
  }

  lemma BasicLayout(b: Basic, rest: bytes)
    requires |b.ckn| <= 4067 && b.capability < 4
    ensures BasicBytes(b) + rest
         == BasicHead(b) + BE(8, b.sci) + BE(12, b.mi) + BE(4, b.mn) + BE(4, b.algoAgility) + b.ckn
            + (Pad4(32 + |b.ckn|) + rest)
  {
    hide BE, Pad4, Bit;
  }

  lemma BasicNumbers(b: Basic)
    ensures FromBE(BE(8, b.sci)) == b.sci && FromBE(BE(12, b.mi)) == b.mi
    ensures FromBE(BE(4, b.mn)) == b.mn && FromBE(BE(4, b.algoAgility)) == b.algoAgility
  {
    Mi12();
    Widths();
    FromBEOfBE(8, b.sci);
    FromBEOfBE(12, b.mi);
    FromBEOfBE(4, b.mn);
    FromBEOfBE(4, b.algoAgility);
  }

  lemma BasicSlices(b: Basic, rest: bytes)
    requires |b.ckn| <= 4067 && b.capability < 4
    ensures var all := BasicBytes(b) + rest;
      && |all| >= 32 + |b.ckn| && all[..4] == BasicHead(b)
      && FromBE(all[4..12]) == b.sci && FromBE(all[12..24]) == b.mi && FromBE(all[24..28]) == b.mn
      && FromBE(all[28..32]) == b.algoAgility && all[32..32 + |b.ckn|] == b.ckn
      && all[32 + |b.ckn|..] == Pad4(32 + |b.ckn|) + rest
  {
    BasicLayout(b, rest);
    BasicNumbers(b);
    hide BasicBytes, BE, FromBE, Pow256, Pad4, Bit;
    BasicFields(BasicHead(b), BE(8, b.sci), BE(12, b.mi), BE(4, b.mn), BE(4, b.algoAgility), b.ckn, Pad4(32 + |b.ckn|) + rest);
  }

  lemma BasicHeadFields(b: Basic)
    requires |b.ckn| <= 4067 && b.capability < 4
    ensures var h := BasicHead(b);
      && |h| == 4 && h[0] == b.version && h[1] == b.priority && Length12(h[2], h[3]) == 28 + |b.ckn|
      && (h[2] / 128 % 2 == 1) == b.keyServer && (h[2] / 64 % 2 == 1) == b.macsecDesired && h[2] / 16 % 4 == b.capability
  {
    BasicFlags(b.keyServer, b.macsecDesired, b.capability, (28 + |b.ckn|) / 256);
    hide Bit;
  }

  lemma BasicTail(all: bytes, n: nat, rest: bytes)
    requires 32 + n <= |all| && all[32 + n..] == Pad4(32 + n) + rest
    ensures Drop(all, 4 + Align4(28 + n)) == rest
  {
    Pad4Aligns(32 + n);
    assert 4 + Align4(28 + n) == 32 + n + |Pad4(32 + n)|;
    hide Pad4, Align4;
    Split(Pad4(32 + n), rest);
    assert all[32 + n..][|Pad4(32 + n)|..] == all[32 + n + |Pad4(32 + n)|..];
  }

  lemma ReadBasicOfBytes(b: Basic, rest: bytes)
    requires |b.ckn| <= 4067 && b.capability < 4
    ensures var all := BasicBytes(b) + rest; var len := 28 + |b.ckn|;
      && |all| >= 4 + len && Length12(all[2], all[3]) == len
      && ReadBasic(all, len) == b && Drop(all, 4 + Align4(len)) == rest
  {
    var all := BasicBytes(b) + rest;
    hide BasicBytes, FromBE, Pow256, BasicHead, Length12, Align4, Pad4, Drop;
    BasicSlices(b, rest);
    BasicHeadFields(b);
    assert all[0] == all[..4][0] && all[1] == all[..4][1] && all[2] == all[..4][2] && all[3] == all[..4][3];
    BasicTail(all, |b.ckn|, rest);
  }

  lemma ReadSetsUpToDist(p: Mkpdu, dist: bytes)
    requires |p.livePeers| <= 255 && |p.potentialPeers| <= 255
    requires p.sakUse.Some? ==> p.sakUse.value.latestAn < 4 && p.sakUse.value.oldAn < 4
    ensures ReadSets(PeerSetBytes(1, p.livePeers) + (PeerSetBytes(2, p.potentialPeers) + (SakUseBytes(p.sakUse) + dist)),
                     Sets([], [], None, None))
         == ReadSets(dist, Sets(p.livePeers, p.potentialPeers, p.sakUse, None))
  {
    hide ReadSets, PeerSetBytes, SakUseBytes;
    var use := SakUseBytes(p.sakUse) + dist;
    ReadPeerSet(1, p.livePeers, PeerSetBytes(2, p.potentialPeers) + use, Sets([], [], None, None));
    ReadPeerSet(2, p.potentialPeers, use, Sets(p.livePeers, [], None, None));
    ReadSakUseSet(p.sakUse, dist, Sets(p.livePeers, p.potentialPeers, None, None));
  }

  /** Everything before the Distributed SAK is read back; only that last set remains. */
  lemma ReadBodyUpToDist(p: Mkpdu)
    requires |p.basic.ckn| <= 4067 && p.basic.capability < 4
    requires |p.livePeers| <= 255 && |p.potentialPeers| <= 255
    requires p.sakUse.Some? ==> p.sakUse.value.latestAn < 4 && p.sakUse.value.oldAn < 4
    ensures ReadBody(BodyBytes(p))
         == match ReadSets(DistSakBytes(p.distSak), Sets(p.livePeers, p.potentialPeers, p.sakUse, None))
            case Err => Err
            case Ok(s) => Ok(Mkpdu(p.basic, s.live, s.potential, s.use, s.dist))
  {
    hide ReadSets, PeerSetBytes, SakUseBytes, DistSakBytes, BasicBytes, ReadBasic, Drop, Length12;
    var dist := DistSakBytes(p.distSak);
    ReadSetsUpToDist(p, dist);
    ReadBasicOfBytes(p.basic, PeerSetBytes(1, p.livePeers) + (PeerSetBytes(2, p.potentialPeers) + (SakUseBytes(p.sakUse) + dist)));
  }

  lemma SetSize(kind: u8, octet2: u8, flags: u8, data: bytes)
    requires flags < 16
    ensures |SetBytes(kind, octet2, flags, data)| == 4 + Align4(|data|)
  {
    Pad4Aligns(|data|);
  }

  lemma PeerSetSize(kind: u8, ps: seq<PeerId>)
    ensures |PeerSetBytes(kind, ps)| % 4 == 0 && |PeerSetBytes(kind, ps)| <= 16 * |ps| + 4
  {
    hide PeersBytes, SetBytes;
    SetSize(kind, 0, 0, PeersBytes(ps));
  }

  lemma SakUseSetSize(u: Option<SakUse>)
    ensures |SakUseBytes(u)| == if u.None? then 0 else 44
  {
    if u.Some? {
      hide SakUseData, SakUseOctet2, SakUseFlags, SetBytes;
      SetSize(3, SakUseOctet2(u.value), SakUseFlags(u.value), SakUseData(u.value));
    }
  }

  lemma DistSakSetSize(d: Option<DistSak>)
    ensures |DistSakBytes(d)| % 4 == 0
    ensures |DistSakBytes(d)| <= if d.None? then 0 else 11 + |d.value.wrappedSak|
  {
    if d.Some? {
      hide BE, SetBytes;
      SetSize(4, 64 * (d.value.an % 4) + 16 * (d.value.confidentialityOffset % 4), 0, BE(4, d.value.kn) + d.value.wrappedSak);
    }
  }

  lemma AlignBounds(n: nat)
    ensures Align4(n) % 4 == 0 && n <= Align4(n) <= n + 3
  {
  }

  lemma BasicSize(b: Basic)
    ensures |BasicBytes(b)| % 4 == 0 && 32 + |b.ckn| <= |BasicBytes(b)| <= 35 + |b.ckn|
  {
    hide Pad4, Align4, BE, Bit;
    Pad4Aligns(32 + |b.ckn|);
    AlignBounds(32 + |b.ckn|);
  }

  lemma AlignedSum(a: nat, b: nat, c: nat, d: nat, e: nat)
    requires a % 4 == 0 && b % 4 == 0 && c % 4 == 0 && d % 4 == 0 && e % 4 == 0
    ensures (a + (b + (c + (d + e)))) % 4 == 0
  {
  }

  lemma BodyAligned(p: Mkpdu)
    ensures |BodyBytes(p)| % 4 == 0 && |BodyBytes(p)| >= 32
  {
    BasicSize(p.basic);
    PeerSetSize(1, p.livePeers);
    PeerSetSize(2, p.potentialPeers);
    SakUseSetSize(p.sakUse);
    DistSakSetSize(p.distSak);
    hide BasicBytes, PeerSetBytes, SakUseBytes, DistSakBytes;
    AlignedSum(|BasicBytes(p.basic)|, |PeerSetBytes(1, p.livePeers)|, |PeerSetBytes(2, p.potentialPeers)|,
               |SakUseBytes(p.sakUse)|, |DistSakBytes(p.distSak)|);
  }

  lemma BodyFits(p: Mkpdu)
    requires Encodable(p)
    ensures |BodyBytes(p)| <= 0xffff - ICV_LEN
  {
    BasicSize(p.basic);
    PeerSetSize(1, p.livePeers);
    PeerSetSize(2, p.potentialPeers);
    SakUseSetSize(p.sakUse);
    DistSakSetSize(p.distSak);
    hide BasicBytes, PeerSetBytes, SakUseBytes, DistSakBytes;
  }

  lemma FrameLayout(c: Crypto, p: Mkpdu, da: bytes, sa: bytes, ick: bytes, trail: bytes)
    requires c.Lawful() && Build(c, p, da, sa, ick).Ok?
    ensures Parse(c, Build(c, p, da, sa, ick).value + trail, da, sa, ick)
         == match ReadBody(BodyBytes(p)) case Err => Err case Ok(q) => Ok(Some(q))
  {
    var body := BodyBytes(p);
    BodyAligned(p);
    hide BodyBytes, ReadBody;
    var len := BE(2, |body| + ICV_LEN);
    Read16OfBE(|body| + ICV_LEN);
    hide BE;
    var head: bytes := [EAPOL_VERSION, EAPOL_TYPE_MKA] + len;
    var eapol := head + body;
    var icv := ComputeIcv(c, ick, da, sa, eapol);
    assert |icv| == ICV_LEN;
    hide ComputeIcv;
    var frame := eapol + icv + trail;
    Field(head, body, icv + trail);
    assert frame == head + body + (icv + trail);
    Field(eapol, icv, trail);
    assert frame[..|eapol|] == eapol;
  }

  /** Whatever the parser returns fits the fields, or carries an explicit cipher suite. */
  predicate Decoded(s: Sets) {
    && |s.live| <= 255 && |s.potential| <= 255
    && (s.use.Some? ==> s.use.value.latestAn < 4 && s.use.value.oldAn < 4)
    && (s.dist.Some? ==> var d := s.dist.value;
         && d.an < 4 && d.confidentialityOffset < 4 && |d.wrappedSak| <= 4091
         && (d.cipherSuite.None? ==> |d.wrappedSak| < 32)
         && (d.cipherSuite.Some? ==> |d.wrappedSak| >= 24))
  }

  lemma {:induction false} ReadSetsDecoded(rest: bytes, acc: Sets)
    requires Decoded(acc)
    ensures ReadSets(rest, acc).Ok? ==> Decoded(ReadSets(rest, acc).value)
    decreases |rest|
  {
    hide FromBE, Pow256, ReadPeers;
    if |rest| >= 4 && 4 + Length12(rest[2], rest[3]) <= |rest| {
      var length := Length12(rest[2], rest[3]);
      var r := ReadSet(rest[0], rest[1], rest[2], rest[4..4 + length], acc);
      if r.Ok? {
        assert Decoded(r.value);
        ReadSetsDecoded(Drop(rest, 4 + Align4(length)), r.value);
      }
    }
  }

  /** Parsing terminates in bounds on every input and only yields MKPDUs in these ranges. */
  lemma ReadBodyDecoded(body: bytes)
    ensures var r := ReadBody(body);
      r.Ok? ==>
        && |r.value.basic.ckn| <= 4067 && r.value.basic.capability < 4
        && Decoded(Sets(r.value.livePeers, r.value.potentialPeers, r.value.sakUse, r.value.distSak))
  {
    hide FromBE, Pow256, ReadSets;
    if |body| >= 32 {
      var len := Length12(body[2], body[3]);
      ReadSetsDecoded(Drop(body, 4 + Align4(len)), Sets([], [], None, None));
    }
  }

  lemma BodyRoundTrip(p: Mkpdu)
    ensures ReadBody(BodyBytes(p)) == Ok(p) <==> Encodable(p)
  {
    hide BodyBytes, ReadBody, ReadSets, DistSakBytes;
    ReadBodyDecoded(BodyBytes(p));
    if Encodable(p) || ReadBody(BodyBytes(p)) == Ok(p) {
      ReadBodyUpToDist(p);
      var acc := Sets(p.livePeers, p.potentialPeers, p.sakUse, None);
      if p.distSak.Some? {
        ReadDistSakSet(p.distSak.value, acc);
        ReadDistSakData(p.distSak.value);
      } else {
        NoSets(acc);
      }
    }
  }

  lemma NoSets(acc: Sets)
    ensures ReadSets(DistSakBytes(None), acc) == Ok(acc)
  {
  }

  /** For every MKPDU, with any octets after the frame: the frame
      reads back as the MKPDU exactly when the MKPDU fits its fields. */
  lemma RoundTrip(c: Crypto, p: Mkpdu, da: bytes, sa: bytes, ick: bytes, trail: bytes)
    requires c.Lawful()
    ensures Encodable(p) ==> Build(c, p, da, sa, ick).Ok?
    ensures var r := Build(c, p, da, sa, ick);
      r.Ok? ==> (Parse(c, r.value + trail, da, sa, ick) == Ok(Some(p)) <==> Encodable(p))
  {
    BodyRoundTrip(p);
    if Encodable(p) {
      BodyFits(p);
    }
    hide BodyBytes, ReadBody;
    if Build(c, p, da, sa, ick).Ok? {
      FrameLayout(c, p, da, sa, ick, trail);
      hide Parse;
    }
  }
}
