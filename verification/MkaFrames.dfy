/** What a received EAPOL-MKA frame must be for a participant to act on it, stated on its octets. */
module MkaFrames {
  import opened Wire
  import opened Mkpdu
  import opened Mka
  import MkpduRoundTrip

  /** The integrity check value is there, and is that of the addresses, the EtherType and the octets before it. */
  predicate Authentic(c: Crypto, f: Frame, ick: bytes) {
    && |f.payload| >= 24
    && (var n := Read16(f.payload[2], f.payload[3]);
        && 20 <= n && n % 4 == 0 && 4 + n <= |f.payload|
        && f.payload[n - 12..n + 4] == c.cmac(ick, BE(6, f.dst) + BE(6, f.src) + [0x88, 0x8e] + f.payload[..n - 12]))
  }

  lemma ParsedIsAuthentic(c: Crypto, f: Frame, ick: bytes)
    requires var r := Parse(c, f.payload, BE(6, f.dst), BE(6, f.src), ick); r.Ok? && r.value.Some?
    ensures Authentic(c, f, ick)
  {
    hide ReadBody, BE;
  }

  /** A participant changes only on an MKPDU to the group address, from an individual address other than its own, whose
      integrity check value its own ICK gives for the frame. */
  lemma ActsOnlyOnAuthentic(c: Crypto, s: State, f: Frame, env: Env)
    requires HandleFrame(c, s, f, env) != s
    ensures f.dst == 0x0180_c200_0003 && f.src / 0x100_0000_0000 % 2 == 0 && f.src != s.cfg.mac
    ensures Authentic(c, f, s.cfg.ick) && f.payload[1] == 5
  {
    hide Parse, HandlePdu, Authentic, BE;
    var r := Parse(c, f.payload, BE(6, f.dst), BE(6, f.src), s.cfg.ick);
    if r.Ok? && r.value.Some? {
      ParsedIsAuthentic(c, f, s.cfg.ick);
    }
  }

  lemma BuiltLayout(c: Crypto, p: Mkpdu, da: bytes, sa: bytes, ick: bytes)
    requires c.Lawful() && Build(c, p, da, sa, ick).Ok?
    ensures var b := Build(c, p, da, sa, ick).value; var n := |b| - 16;
      && |b| >= 24 && Read16(b[2], b[3]) == |b| - 4 && |b| % 4 == 0 && b[1] == EAPOL_TYPE_MKA
      && b[n..] == ComputeIcv(c, ick, da, sa, b[..n])
  {
    var body := BodyBytes(p);
    MkpduRoundTrip.BodyAligned(p);
    hide BodyBytes;
    Read16OfBE(|body| + ICV_LEN);
    hide BE, Read16;
    var eapol := [EAPOL_VERSION, EAPOL_TYPE_MKA] + BE(2, |body| + ICV_LEN) + body;
    var b := Build(c, p, da, sa, ick).value;
    assert |ComputeIcv(c, ick, da, sa, eapol)| == 16;
    hide ComputeIcv;
    assert b[..|b| - 16] == eapol;
  }

  lemma ParseRefuses(c: Crypto, eapol: bytes, da: bytes, sa: bytes, ick: bytes, n: nat)
    requires 8 <= n && n + 16 <= |eapol| && eapol[1] == EAPOL_TYPE_MKA && Read16(eapol[2], eapol[3]) == n + 12 && n % 4 == 0
    requires eapol[n..n + 16] != ComputeIcv(c, ick, da, sa, eapol[..n])
    ensures Parse(c, eapol, da, sa, ick) == Err
  {
    hide Read16, ComputeIcv, ReadBody;
  }

  /** Of all frames that agree with a built one up to its integrity check value, exactly the built one is read; every
      other is refused, whatever follows. */
  lemma AlteredIcvRefused(c: Crypto, p: Mkpdu, da: bytes, sa: bytes, ick: bytes, altered: bytes, trail: bytes)
    requires c.Lawful() && MkpduRoundTrip.Encodable(p) && Build(c, p, da, sa, ick).Ok?
    requires var b := Build(c, p, da, sa, ick).value;
      |altered| == |b| >= 16 && altered[..|b| - 16] == b[..|b| - 16]
    ensures Parse(c, altered + trail, da, sa, ick)
         == if altered == Build(c, p, da, sa, ick).value then Ok(Some(p)) else Err
  {
    hide Parse, Build, MkpduRoundTrip.Encodable, ComputeIcv, Read16;
    var b := Build(c, p, da, sa, ick).value;
    MkpduRoundTrip.RoundTrip(c, p, da, sa, ick, trail);
    BuiltLayout(c, p, da, sa, ick);
    if altered != b {
      var n := |b| - 16;
      var eapol := altered + trail;
      Tails(altered, b, n, trail);
      ParseRefuses(c, eapol, da, sa, ick, n);
    }
  }

  lemma Tails(a: bytes, b: bytes, n: nat, trail: bytes)
    requires 4 <= n && |a| == |b| == n + 16 && a[..n] == b[..n] && a != b
    ensures var all := a + trail;
      && all[1] == b[1] && all[2] == b[2] && all[3] == b[3] && all[..n] == b[..n] && all[n..n + 16] != b[n..]
  {
    var all := a + trail;
    assert a[..n][1] == a[1] && a[..n][2] == a[2] && a[..n][3] == a[3];
    assert all[..n] == a[..n] && all[n..n + 16] == a[n..];
    assert a == a[..n] + a[n..] && b == b[..n] + b[n..];
  }
}
